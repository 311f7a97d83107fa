/**
 Exactly when the card services pass, what they then move and write, and that a refused call moves nothing.
 */
module CardOutcomes {
  import opened Common
  import opened Journals
  import opened Canonical
  import opened Ledger
  import opened LedgerRuns
  import opened Accounting
  import opened Banking
  import opened BankRuns
  import opened BankTheorems
  import opened Movements
  import opened Calendar
  import opened Cards
  import opened CardRuns
  import opened CardStatements

  /** A bank with sound books, none of whose customers owns the receivable account. */
  ghost predicate Settles(h: Hashing, s: CardState) {
    BankOk(h, s.bank) && RECEIVABLE !in Codes(s.bank.accounts) && AccountsExist(s)
  }

  function CardPosting(account: Account, amount: int, reference: string, description: string, at: string): Posting {
    Posting(reference, description, CardLines(account, amount), at, "")
  }

  /** A movement from a customer to the receivable, with what it does to the customer's available balance. */
  lemma CardMoves(h: Hashing, bank: Bank, a: nat, amount: int, reference: string, description: string, at: string)
    requires BankOk(h, bank) && RECEIVABLE !in Codes(bank.accounts) && a < |bank.accounts| && at != ""
    ensures CodesKnown(bank)
    ensures var r, account := CardPosted(h, bank, a, amount, reference, description, at), bank.accounts[a];
            && (r.1.None? <==>
                  Acceptable(bank, RECEIVABLE, "USD", CardPosting(account, amount, reference, description, at), account.code, RECEIVABLE, amount))
            && (if r.1.None? then r.0 == bank.(book := r.0.book) && Moves(bank, r.0, account.code, RECEIVABLE, amount)
                  && Available(r.0, a) == Available(bank, a) - amount
                else NothingMoved(bank, r.0))
  {
    BankOkShape(h, bank);
    var account := bank.accounts[a];
    assert account in bank.accounts && Codes(bank.accounts)[a] == account.code;
    EnsureKeepsBook(h, bank.book, RECEIVABLE, "USD");
    hide BankOk, Moves, Acceptable, PostLines, Available;
    ServiceMoves(h, bank, RECEIVABLE, "USD", CardPosting(account, amount, reference, description, at), account.code, RECEIVABLE, amount);
    var v := CardPosted(h, bank, a, amount, reference, description, at).0;
    if Moves(bank, v, account.code, RECEIVABLE, amount) {
      MovesAvailable(h, bank, v, account.code, RECEIVABLE, amount, a);
    }
  }

  // ----- purchases

  predicate UnusedPurchaseKey(marks: seq<Mark>, key: Option<string>) {
    key.None? || forall m :: m in marks && m.Bought? ==> m.key != key.value
  }

  predicate PurchasePasses(s: CardState, q: PurchaseRequest)
    requires AccountsExist(s)
  {
    && q.card < |s.cards| && PurchaseProblem(s, q).None?
    && var account := s.bank.accounts[s.cards[q.card].account];
       Acceptable(s.bank, RECEIVABLE, "USD", CardPosting(account, q.amount, q.reference, q.description, q.at),
                  account.code, RECEIVABLE, q.amount)
  }

  /** One approved purchase of today, posted; a debit card stays within its account, any other within its credit. */
  ghost predicate Buys(s: CardState, v: CardState, q: PurchaseRequest)
    requires q.card < |s.cards| && s.cards[q.card].account < |s.bank.accounts|
  {
    var card := s.cards[q.card];
    && v.bank == s.bank.(book := v.bank.book)
    && Moves(s.bank, v.bank, s.bank.accounts[card.account].code, RECEIVABLE, q.amount)
    && v == s.(bank := v.bank, purchases := v.purchases, marks := v.marks)
    && v.purchases == s.purchases + [Purchase(q.card, q.amount, s.today, false, Some(s.bank.book.nextId))]
    && v.marks == (if q.key.None? then s.marks else s.marks + [Bought(q.key.value, |s.purchases|)])
    && (if card.kind == DEBIT_CARD then Available(v.bank, card.account) >= 0 else RawUsed(v, q.card) <= card.creditLimit)
  }

  lemma PurchaseOutcome(h: Hashing, s: CardState, q: PurchaseRequest)
    requires Settles(h, s) && q.at != "" && UnusedPurchaseKey(s.marks, q.key)
    ensures var r := Purchased(h, s, q);
            && (r.1.Ok? <==> PurchasePasses(s, q)) && (q.amount <= 0 ==> r == (s, Err(NonPositiveAmount)))
            && (r.1.Err? ==> r.0 == s.(bank := r.0.bank) && NothingMoved(s.bank, r.0.bank))
            && (r.1.Ok? ==> r.1.value == |s.purchases| && Buys(s, r.0, q))
  {
    NoPurchaseFound(s.marks, q.key);
    UnmovedItself(s.bank);
    hide BankOk, CardPosted, Moves, MovementFits, FindBought, PurchaseProblem, NothingMoved, Available, Buys;
    if q.card < |s.cards| {
      CardMoves(h, s.bank, s.cards[q.card].account, q.amount, q.reference, q.description, q.at);
      var r := Purchased(h, s, q);
      if r.1.Ok? {
        BoughtRow(s, r.0, q);
      }
    }
  }

  lemma {:induction false} NoPurchaseFound(marks: seq<Mark>, key: Option<string>)
    requires UnusedPurchaseKey(marks, key)
    ensures FindBought(marks, key).None?
  {
    if key.Some? && marks != [] {
      assert marks[0] in marks && forall m :: m in marks[1..] ==> m in marks;
      NoPurchaseFound(marks[1..], key);
    }
  }

  lemma BoughtRow(s: CardState, v: CardState, q: PurchaseRequest)
    requires q.card < |s.cards| && s.cards[q.card].account < |s.bank.accounts| && PurchaseProblem(s, q).None?
    requires v.bank == s.bank.(book := v.bank.book)
    requires Moves(s.bank, v.bank, s.bank.accounts[s.cards[q.card].account].code, RECEIVABLE, q.amount)
    requires Available(v.bank, s.cards[q.card].account) == Available(s.bank, s.cards[q.card].account) - q.amount
    requires v == s.(bank := v.bank,
                     purchases := s.purchases + [Purchase(q.card, q.amount, s.today, false, Some(s.bank.book.nextId))],
                     marks := Marked(s.marks, q.key, |s.purchases|))
    ensures Buys(s, v, q)
  {
    ApprovedSnoc(s.purchases, v.purchases[|s.purchases|], q.card);
    hide Moves, Available;
  }

  /** A key that was used before stands for its purchase, and nothing happens. */
  lemma PurchaseReplay(h: Hashing, s: CardState, q: PurchaseRequest)
    requires AccountsExist(s) && q.amount > 0 && q.card < |s.cards| && !UnusedPurchaseKey(s.marks, q.key)
    ensures var r := Purchased(h, s, q);
            r.0 == s && r.1.Ok? && Bought(q.key.value, r.1.value) in s.marks
  {
  }

  /** What the card has spent on a day. */
  function SpentOn(purchases: seq<Purchase>, c: nat, day: Day): int {
    if purchases == [] then 0
    else
      var p := purchases[0];
      (if p.card == c && !p.declined && p.on == day then p.amount else 0) + SpentOn(purchases[1..], c, day)
  }

  lemma {:induction false} SpentSnoc(purchases: seq<Purchase>, p: Purchase, c: nat, day: Day)
    ensures SpentOn(purchases + [p], c, day)
         == SpentOn(purchases, c, day) + (if p.card == c && !p.declined && p.on == day then p.amount else 0)
  {
    if purchases == [] {
      assert purchases + [p] == [p] && [p][1..] == [];
    } else {
      assert (purchases + [p])[1..] == purchases[1..] + [p];
      SpentSnoc(purchases[1..], p, c, day);
    }
  }

  /** As nothing is dated ahead, the sum since the start of today is what was spent today. */
  lemma {:induction false} SumSinceIsToday(s: CardState, c: nat, n: nat)
    requires CardsOk(s) && n <= |s.purchases|
    ensures SumSince(s.purchases[..n], c, s.today) == SpentOn(s.purchases[..n], c, s.today)
  {
    if n > 0 {
      var p := s.purchases[n - 1];
      assert s.purchases[..n] == s.purchases[..n - 1] + [p];
      SumSinceIsToday(s, c, n - 1);
      SpentSnoc(s.purchases[..n - 1], p, c, s.today);
      assert PurchaseOk(s, p);
    }
  }

  /** No purchase takes a card beyond its daily limit: with it, what was spent today is still within. */
  lemma DailySpendWithinLimit(h: Hashing, s: CardState, q: PurchaseRequest)
    requires CardsOk(s)
    ensures var v := Purchased(h, s, q).0;
            |v.purchases| > |s.purchases| ==>
              q.card < |s.cards| && SpentOn(v.purchases, q.card, s.today) <= s.cards[q.card].dailyLimit
  {
    CardsOkShape(s);
    hide CardPosted, CardsOk;
    var v, n := Purchased(h, s, q).0, |s.purchases|;
    if |v.purchases| > n {
      assert s.purchases[..n] == s.purchases;
      SumSinceIsToday(s, q.card, n);
      SpentSnoc(s.purchases, v.purchases[n], q.card, s.today);
    }
  }

  /** What a statement is composed of, in the terms of the query: the approved, posted purchases of the cycle. */
  lemma {:induction false} CompositionIsQuery(purchases: seq<Purchase>, c: nat, cycle: Cycle)
    ensures Composition(purchases, c, cycle)
         == Select(purchases, (p: Purchase) =>
                     p.card == c && !p.declined && p.journal.Some? && !Before(p.on, cycle.start) && !Before(cycle.end, p.on))
  {
    if purchases != [] {
      var n := |purchases| - 1;
      CompositionIsQuery(purchases[..n], c, cycle);
      assert purchases == purchases[..n] + [purchases[n]];
      SelectSnoc(purchases[..n], purchases[n], (p: Purchase) =>
                   p.card == c && !p.declined && p.journal.Some? && !Before(p.on, cycle.start) && !Before(cycle.end, p.on));
    }
  }

  /**
   Shown to the customer, neither figure is ever negative; they make up the limit exactly as long as the raw
   figure lies between zero and the limit.
   */
  lemma CreditFiguresAgreeIff(s: CardState, c: nat)
    requires c < |s.cards| && s.cards[c].creditLimit >= 0
    ensures CreditUsed(s, c) >= 0 && CreditAvailable(s, c) >= 0
    ensures CreditUsed(s, c) + CreditAvailable(s, c) == s.cards[c].creditLimit && CreditUsed(s, c) == RawUsed(s, c)
         <==> 0 <= RawUsed(s, c) <= s.cards[c].creditLimit
  {
  }

  // ----- statement payments

  predicate UnusedPaymentKey(marks: seq<Mark>, key: Option<string>) {
    key.None? || forall m :: m in marks && m.Paid? ==> m.key != key.value
  }

  /** The payment is for this statement: an unpaid one of the card, the one that is named if any is. */
  predicate IsDue(s: CardState, q: PaymentRequest, i: nat)
    requires i < |s.statements|
  {
    s.statements[i].card == q.card && !s.statements[i].paid && q.statement in {None, Some(i)}
  }

  predicate PaymentPasses(s: CardState, q: PaymentRequest, total: int)
    requires AccountsExist(s)
  {
    && q.card < |s.cards|
    && var a := s.cards[q.card].account;
       var account := s.bank.accounts[a];
       && (q.staff || account.owner == q.actor.id) && total <= Available(s.bank, a)
       && Acceptable(s.bank, RECEIVABLE, "USD", CardPosting(account, total, q.reference, q.description, q.at),
                     account.code, RECEIVABLE, total)
  }

  /** The statements due are paid and no others; the account has paid for exactly them, and stays solvent. */
  ghost predicate PaysFor(s: CardState, v: CardState, q: PaymentRequest, total: int)
    requires q.card < |s.cards| && s.cards[q.card].account < |s.bank.accounts|
  {
    var a := s.cards[q.card].account;
    && v.bank == s.bank.(book := v.bank.book) && Moves(s.bank, v.bank, s.bank.accounts[a].code, RECEIVABLE, total)
    && 0 <= Available(v.bank, a) == Available(s.bank, a) - total
    && v == s.(bank := v.bank, statements := v.statements, marks := v.marks)
    && v.marks == (if q.key.None? then s.marks else s.marks + [Paid(q.key.value, total)])
    && |v.statements| == |s.statements|
    && (forall i: nat :: i < |s.statements| ==>
          v.statements[i] == if IsDue(s, q, i) then s.statements[i].(paid := true) else s.statements[i])
    && Outstanding(v, q.card) == Outstanding(s, q.card) - total
  }

  lemma PaymentOutcome(h: Hashing, s: CardState, q: PaymentRequest)
    requires Settles(h, s) && q.at != "" && UnusedPaymentKey(s.marks, q.key)
    ensures var r, total := StatementsPaid(h, s, q), CoveredTotal(s, q, |s.statements|);
            && (r.1.Ok? <==> PaymentPasses(s, q, total))
            && (r.1.Err? ==> r.0 == s.(bank := r.0.bank) && NothingMoved(s.bank, r.0.bank))
            && (r.1.Ok? ==> r.1.value == total && PaysFor(s, r.0, q, total))
  {
    NoPaymentFound(s.marks, q.key);
    UnmovedItself(s.bank);
    hide BankOk, CardPosted, Moves, FindPaid, CoveredTotal, NothingMoved, Available, PaysFor, MarkPaid, MovementFits;
    if q.card < |s.cards| {
      var total := CoveredTotal(s, q, |s.statements|);
      CardMoves(h, s.bank, s.cards[q.card].account, total, q.reference, q.description, q.at);
      PaymentReleasesCredit(h, s, q);
      var r := StatementsPaid(h, s, q);
      if r.1.Ok? {
        PaidStatements(s, r.0, q, total);
      }
    }
  }

  lemma {:induction false} NoPaymentFound(marks: seq<Mark>, key: Option<string>)
    requires UnusedPaymentKey(marks, key)
    ensures FindPaid(marks, key).None?
  {
    if key.Some? && marks != [] {
      assert marks[0] in marks && forall m :: m in marks[1..] ==> m in marks;
      NoPaymentFound(marks[1..], key);
    }
  }

  lemma PaidStatements(s: CardState, v: CardState, q: PaymentRequest, total: int)
    requires q.card < |s.cards| && s.cards[q.card].account < |s.bank.accounts| && v.bank == s.bank.(book := v.bank.book)
    requires Moves(s.bank, v.bank, s.bank.accounts[s.cards[q.card].account].code, RECEIVABLE, total)
    requires 0 <= Available(v.bank, s.cards[q.card].account) == Available(s.bank, s.cards[q.card].account) - total
    requires v == s.(bank := v.bank, statements := MarkPaid(s, q, |s.statements|),
                     marks := if q.key.None? then s.marks else s.marks + [Paid(q.key.value, total)])
    requires Outstanding(v, q.card) == Outstanding(s, q.card) - total
    ensures PaysFor(s, v, q, total)
  {
    hide Moves, Available, Outstanding;
  }

  /** A key that was used before stands for the total it paid, and nothing happens. */
  lemma PaymentReplay(h: Hashing, s: CardState, q: PaymentRequest)
    requires AccountsExist(s) && q.card < |s.cards| && !UnusedPaymentKey(s.marks, q.key)
    ensures var r := StatementsPaid(h, s, q);
            r.0 == s && r.1.Ok? && Paid(q.key.value, r.1.value) in s.marks
  {
  }

  // ----- closing and controls

  /** Closing bills exactly the credit cards that have not been replaced: for them, what the cycle comes to, once. */
  lemma ClosingOutcome(s: CardState, reference: Day, c: nat)
    requires c < |s.cards|
    ensures var cycle, after := PreviousCycle(reference), CyclesClosed(s, reference).statements;
            HasStatement(after, c, cycle.end) <==>
              || HasStatement(s.statements, c, cycle.end)
              || (&& s.cards[c].kind == CREDIT_CARD && s.cards[c].status != REPLACED
                  && Total(Composition(s.purchases, c, cycle)) > 0)
  {
    ClosingIsComplete(s, PreviousCycle(reference), |s.cards|, c, PreviousCycle(reference).end);
  }

  /** A new statement bills what the cycle comes to and falls due ten days after its end. */
  predicate BillsCycle(s: CardState, t: Statement, cycle: Cycle) {
    && t.card < |s.cards| && t.cycle == cycle && !t.paid && t.amount == Total(Composition(s.purchases, t.card, cycle))
    && DayNumber(t.due) == DayNumber(cycle.end) + 10
  }

  lemma {:induction false} NewStatements(s: CardState, cycle: Cycle, n: nat)
    requires n <= |s.cards|
    ensures s.statements <= ClosedUpTo(s, cycle, n)
    ensures forall i: nat :: |s.statements| <= i < |ClosedUpTo(s, cycle, n)| ==> BillsCycle(s, ClosedUpTo(s, cycle, n)[i], cycle)
  {
    if n > 0 {
      NewStatements(s, cycle, n - 1);
      AddDaysCounts(cycle.end, 10);
      hide AddDays, DayNumber, Composition, Total, HasStatement, Closable;
    }
  }

  /** Controls are the owner's or the staff's, never change a blocked card, and set exactly what they name. */
  lemma ControlOutcome(s: CardState, c: nat, k: Controls)
    requires c < |s.cards| && s.cards[c].account < |s.bank.accounts|
    ensures var r, card := ControlsSet(s, c, k), s.cards[c];
            && (r.1.None? <==>
                  && (k.staff || s.bank.accounts[card.account].owner == k.actor.id) && card.status != CARD_BLOCKED
                  && k.txLimit >= 0 && k.dailyLimit >= 0 && card.creditLimit >= 0)
            && (r.1.Some? ==> r.0 == s)
            && (r.1.None? ==>
                  && |r.0.cards| == |s.cards| && r.0 == s.(cards := s.cards[c := r.0.cards[c]])
                  && var u := r.0.cards[c];
                     && u.account == card.account && u.kind == card.kind && u.expiry == card.expiry && u.creditLimit == card.creditLimit
                     && u.txLimit == k.txLimit && u.dailyLimit == k.dailyLimit
                     && u.onlineEnabled == k.onlineEnabled && u.internationalEnabled == k.internationalEnabled
                     && (k.status in {Some(FROZEN), Some(CARD_ACTIVE), Some(CARD_BLOCKED)} ==> Some(u.status) == k.status)
                     && (k.status in {None, Some(EXPIRED), Some(REPLACED)} ==> u.status == card.status))
  {
  }

  /** A decline of the risk gate is on record, but is no purchase: it uses no credit and no statement bills it. */
  lemma DeclineOutcome(s: CardState, c: nat, amount: int, cycle: Cycle)
    requires c < |s.cards|
    ensures var v := GateDeclined(s, c, amount);
            && |v.purchases| == |s.purchases| + 1 && v == s.(purchases := v.purchases) && v.purchases[..|s.purchases|] == s.purchases
            && v.purchases[|s.purchases|].declined && v.purchases[|s.purchases|].card == c && v.purchases[|s.purchases|].amount == amount
            && RawUsed(v, c) == RawUsed(s, c) && Composition(v.purchases, c, cycle) == Composition(s.purchases, c, cycle)
  {
    var p := Purchase(c, amount, s.today, true, None);
    ApprovedSnoc(s.purchases, p, c);
    CompositionSnoc(s.purchases, p, c, cycle);
  }
}
