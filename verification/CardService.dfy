/**
 The card services as they run, each against its specification in `Cards`.
 */
module CardServices {
  import opened Common
  import opened Journals
  import opened Canonical
  import opened Ledger
  import opened Accounting
  import opened Banking
  import opened Calendar
  import opened Cards
  import opened CardRuns

  lemma {:induction false} SameCovered(s: CardState, v: CardState, q: PaymentRequest, n: nat)
    requires v.statements == s.statements && n <= |s.statements|
    ensures MarkPaid(v, q, n) == MarkPaid(s, q, n)
  {
    if n > 0 {
      SameCovered(s, v, q, n - 1);
    }
  }

  class CardService {
    const h: Hashing
    var bank: Bank
    var cards: seq<Card>
    var purchases: seq<Purchase>
    var statements: seq<Statement>
    var marks: seq<Mark>
    var today: Day

    constructor (h: Hashing, bank: Bank, cards: seq<Card>, today: Day)
      ensures this.h == h && State() == CardState(bank, cards, [], [], [], today)
    {
      this.h, this.bank, this.cards, this.today := h, bank, cards, today;
      purchases, statements, marks := [], [], [];
    }

    function State(): CardState
      reads this
    {
      CardState(bank, cards, purchases, statements, marks, today)
    }

    /** `purchase` with `_purchase_atomic` */
    method Buy(q: PurchaseRequest) returns (r: Result<nat, CardError>)
      requires AccountsExist(State())
      modifies this
      ensures (State(), r) == Purchased(h, old(State()), q)
    {
      if q.amount <= 0 {
        return Err(NonPositiveAmount);
      }
      if q.card >= |cards| {
        return Err(NoCard);
      }
      var settled := FindBought(marks, q.key);
      if settled.Some? {
        return Ok(settled.value);
      }
      var problem := PurchaseProblem(State(), q);
      if problem.Some? {
        return Err(problem.value);
      }
      var journal := bank.book.nextId;
      var posted := CardPosted(h, bank, cards[q.card].account, q.amount, q.reference, q.description, q.at);
      bank := posted.0;
      if posted.1.Some? {
        return Err(CardPostingRefused(posted.1.value));
      }
      var row := |purchases|;
      purchases := purchases + [Purchase(q.card, q.amount, today, false, Some(journal))];
      if q.key.Some? {
        marks := marks + [Bought(q.key.value, row)];
      }
      r := Ok(row);
    }

    /** The sum that the closing forms over a card's eligible purchases. */
    method BillableTotal(c: nat, cycle: Cycle) returns (total: int)
      ensures total == Total(Composition(purchases, c, cycle))
    {
      total := 0;
      for i := 0 to |purchases|
        invariant total == Billable(purchases[..i], c, cycle)
      {
        assert purchases[..i + 1] == purchases[..i] + [purchases[i]];
        BillableSnoc(purchases[..i], purchases[i], c, cycle);
        if Eligible(purchases[i], c, cycle) {
          total := total + purchases[i].amount;
        }
      }
      assert purchases[..|purchases|] == purchases;
    }

    /** `close_card_statements`; `created` lists the new statements. */
    method CloseCardStatements(reference: Day) returns (created: seq<Statement>)
      modifies this`statements
      ensures State() == CyclesClosed(old(State()), reference)
      ensures statements == old(statements) + created
    {
      var cycle := PreviousCycle(reference);
      created := [];
      for c := 0 to |cards|
        invariant State() == old(State()).(statements := ClosedUpTo(old(State()), cycle, c))
        invariant statements == old(statements) + created
      {
        if Closable(cards[c]) {
          var total := BillableTotal(c, cycle);
          if total > 0 && !HasStatement(statements, c, cycle.end) {
            var statement := Statement(c, cycle, total, AddDays(cycle.end, DUE_DAYS_AFTER_CLOSE), false);
            statements := statements + [statement];
            created := created + [statement];
          }
        }
      }
    }

    /** The sum over the statements that a payment covers. */
    method AmountCovered(q: PaymentRequest) returns (total: int)
      ensures total == CoveredTotal(State(), q, |statements|)
    {
      total := 0;
      for i := 0 to |statements|
        invariant total == CoveredTotal(State(), q, i)
      {
        if Covered(State(), q, i) {
          total := total + statements[i].amount;
        }
      }
    }

    /** `stmts.update(paid=True)` */
    method MarkCovered(q: PaymentRequest)
      modifies this`statements
      ensures statements == MarkPaid(old(State()), q, |old(statements)|)
    {
      ghost var before := State();
      for i := 0 to |statements|
        invariant |statements| == |before.statements|
        invariant forall k: nat :: i <= k < |statements| ==> statements[k] == before.statements[k]
        invariant forall k: nat :: k < i ==>
                    statements[k] == if Covered(before, q, k) then before.statements[k].(paid := true) else before.statements[k]
      {
        if statements[i].card == q.card && !statements[i].paid && (q.statement.Some? ==> q.statement.value == i) {
          statements := statements[i := statements[i].(paid := true)];
        }
      }
    }

    /** `pay_statement`: all unpaid statements of the card, or the one that is named. */
    method PayStatement(q: PaymentRequest) returns (r: Result<int, CardError>)
      requires AccountsExist(State())
      modifies this
      ensures (State(), r) == StatementsPaid(h, old(State()), q)
    {
      if q.card >= |cards| {
        return Err(NoCard);
      }
      var existing := FindPaid(marks, q.key);
      if existing.Some? {
        return Ok(existing.value);
      }
      ghost var before := State();
      var account := cards[q.card].account;
      if !q.staff && bank.accounts[account].owner != q.actor.id {
        return Err(NotOwner);
      }
      var total := AmountCovered(q);
      if total <= 0 {
        return Err(NoOutstandingStatement);
      }
      if Available(bank, account) < total {
        return Err(CardFundsShort);
      }
      var posted := CardPosted(h, bank, account, total, q.reference, q.description, q.at);
      bank := posted.0;
      if posted.1.Some? {
        return Err(CardPostingRefused(posted.1.value));
      }
      ghost var unmarked := State();
      MarkCovered(q);
      SameCovered(before, unmarked, q, |statements|);
      if q.key.Some? {
        marks := marks + [Paid(q.key.value, total)];
      }
      r := Ok(total);
    }

    /** `set_card_control` */
    method SetControl(c: nat, k: Controls) returns (problem: Option<CardError>)
      requires c < |cards| && cards[c].account < |bank.accounts|
      modifies this`cards
      ensures (State(), problem) == ControlsSet(old(State()), c, k)
    {
      var card := cards[c];
      if !k.staff && bank.accounts[card.account].owner != k.actor.id {
        return Some(NotOwner);
      }
      if card.status == CARD_BLOCKED {
        return Some(CardNotActive(CARD_BLOCKED));
      }
      if k.status.Some? && k.status.value in {FROZEN, CARD_ACTIVE, CARD_BLOCKED} {
        card := card.(status := k.status.value);
      }
      card := card.(txLimit := k.txLimit, dailyLimit := k.dailyLimit,
                    onlineEnabled := k.onlineEnabled, internationalEnabled := k.internationalEnabled);
      if card.txLimit < 0 || card.dailyLimit < 0 || card.creditLimit < 0 {
        return Some(LimitsNegative);
      }
      cards := cards[c := card];
      problem := None;
    }
  }
}
