/**
 Credit and debit cards: purchases against limits, the closing of billing cycles, and statement payments.
 Each function below is one service call, all or nothing.
 */
module Cards {
  import opened Common
  import opened Journals
  import opened Canonical
  import opened Ledger
  import opened Accounting
  import opened Banking
  import opened Calendar

  // ----- the tables

  datatype CardType = DEBIT_CARD | CREDIT_CARD | VIRTUAL_CARD | TEMPORARY_VIRTUAL_CARD | SINGLE_USE_CARD

  datatype CardStatus = CARD_ACTIVE | FROZEN | CARD_BLOCKED | EXPIRED | REPLACED

  /** `expiry` is the first day of the card's last month. */
  datatype Card = Card(
    account: nat,
    kind: CardType,
    status: CardStatus,
    expiry: Day,
    creditLimit: int,
    txLimit: int,
    dailyLimit: int,
    onlineEnabled: bool,
    internationalEnabled: bool)

  /** A `CardTransaction`; declined attempts have no journal. */
  datatype Purchase = Purchase(card: nat, amount: int, on: Day, declined: bool, journal: Option<nat>)

  datatype Statement = Statement(card: nat, cycle: Cycle, amount: int, due: Day, paid: bool)

  /** An idempotency record of a card operation: the purchase row, or the total that was paid. */
  datatype Mark = Bought(key: string, row: nat) | Paid(key: string, total: int)

  datatype CardState = CardState(
    bank: Bank,
    cards: seq<Card>,
    purchases: seq<Purchase>,
    statements: seq<Statement>,
    marks: seq<Mark>,
    today: Day)

  datatype CardError =
    | NonPositiveAmount | NoCard | CardExpired | CardFrozen | CardNotActive(status: CardStatus)
    | OnlineDisabled | InternationalDisabled | CardTxLimit | CardDailyLimit | CardAccountNotActive
    | CardFundsShort | CreditLimitExceeded | NoOutstandingStatement | NotOwner | LimitsNegative
    | CardPostingRefused(error: BankError)

  const RECEIVABLE := "3000-CARD-RECEIVABLE"
  const DUE_DAYS_AFTER_CLOSE := 10

  // ----- sums over rows

  predicate Charged(p: Purchase, c: nat) {
    p.card == c && !p.declined
  }

  /** Approved purchases of card `c`. */
  function SumApproved(purchases: seq<Purchase>, c: nat): int {
    if purchases == [] then 0
    else SumApproved(purchases[..|purchases| - 1], c)
         + (if Charged(purchases[|purchases| - 1], c) then purchases[|purchases| - 1].amount else 0)
  }

  /** Those of them made on `day` or later. */
  function SumSince(purchases: seq<Purchase>, c: nat, day: Day): int {
    if purchases == [] then 0
    else
      var p := purchases[|purchases| - 1];
      SumSince(purchases[..|purchases| - 1], c, day) + (if Charged(p, c) && NotAfter(day, p.on) then p.amount else 0)
  }

  predicate Eligible(p: Purchase, c: nat, cycle: Cycle) {
    Charged(p, c) && p.journal.Some? && InCycle(p.on, cycle)
  }

  /** `statement_composition`: the approved, posted purchases of the cycle. */
  function Composition(purchases: seq<Purchase>, c: nat, cycle: Cycle): seq<Purchase> {
    if purchases == [] then []
    else
      var p := purchases[|purchases| - 1];
      Composition(purchases[..|purchases| - 1], c, cycle) + (if Eligible(p, c, cycle) then [p] else [])
  }

  function Total(purchases: seq<Purchase>): int {
    if purchases == [] then 0 else Total(purchases[..|purchases| - 1]) + purchases[|purchases| - 1].amount
  }

  /** Statements of card `c`, paid or unpaid. */
  function SumStatements(statements: seq<Statement>, c: nat, paid: bool): int {
    if statements == [] then 0
    else
      var s := statements[|statements| - 1];
      SumStatements(statements[..|statements| - 1], c, paid) + (if s.card == c && s.paid == paid then s.amount else 0)
  }

  // ----- credit

  /** The credit in use as the purchase check computes it. */
  function RawUsed(s: CardState, c: nat): int {
    SumApproved(s.purchases, c) - SumStatements(s.statements, c, true)
  }

  /** `credit_used` */
  function CreditUsed(s: CardState, c: nat): int {
    var used := RawUsed(s, c);
    if used < 0 then 0 else used
  }

  /** `credit_availability` */
  function CreditAvailable(s: CardState, c: nat): int
    requires c < |s.cards|
  {
    var left := s.cards[c].creditLimit - CreditUsed(s, c);
    if left < 0 then 0 else left
  }

  /** `outstanding_statement_total` */
  function Outstanding(s: CardState, c: nat): int {
    SumStatements(s.statements, c, false)
  }

  // ----- purchases

  datatype PurchaseRequest = PurchaseRequest(
    card: nat, amount: int, online: bool, international: bool, key: Option<string>,
    reference: string, description: string, at: string)

  function FindBought(marks: seq<Mark>, key: Option<string>): (r: Option<nat>)
    ensures r.Some? ==> key.Some? && exists i :: 0 <= i < |marks| && marks[i] == Bought(key.value, r.value)
    ensures r.None? && key.Some? ==> forall i :: 0 <= i < |marks| ==> !(marks[i].Bought? && marks[i].key == key.value)
  {
    if key.None? || marks == [] then None
    else if marks[0].Bought? && marks[0].key == key.value then Some(marks[0].row)
    else
      var r := FindBought(marks[1..], key);
      r
  }

  function Marked(marks: seq<Mark>, key: Option<string>, row: nat): seq<Mark> {
    if key.None? then marks else marks + [Bought(key.value, row)]
  }

  /** The checks of `_purchase_atomic`, in their order. */
  function PurchaseProblem(s: CardState, q: PurchaseRequest): (r: Option<CardError>)
    requires q.card < |s.cards| && s.cards[q.card].account < |s.bank.accounts|
    ensures r.None? <==>
              var card := s.cards[q.card];
              && card.status == CARD_ACTIVE && NotAfter(s.today, card.expiry)
              && (q.online ==> card.onlineEnabled) && (q.international ==> card.internationalEnabled)
              && q.amount <= card.txLimit && SumSince(s.purchases, q.card, s.today) + q.amount <= card.dailyLimit
              && (if card.kind == DEBIT_CARD
                  then s.bank.accounts[card.account].status == CustomerStatus.ACTIVE && q.amount <= Available(s.bank, card.account)
                  else RawUsed(s, q.card) + q.amount <= card.creditLimit)
  {
    var card := s.cards[q.card];
    if Before(card.expiry, s.today) then Some(CardExpired)
    else if card.status == FROZEN then Some(CardFrozen)
    else if card.status != CARD_ACTIVE then Some(CardNotActive(card.status))
    else if q.online && !card.onlineEnabled then Some(OnlineDisabled)
    else if q.international && !card.internationalEnabled then Some(InternationalDisabled)
    else if q.amount > card.txLimit then Some(CardTxLimit)
    else if SumSince(s.purchases, q.card, s.today) + q.amount > card.dailyLimit then Some(CardDailyLimit)
    else if card.kind == DEBIT_CARD then
      if s.bank.accounts[card.account].status != CustomerStatus.ACTIVE then Some(CardAccountNotActive)
      else if Available(s.bank, card.account) < q.amount then Some(CardFundsShort)
      else None
    else if RawUsed(s, q.card) + q.amount > card.creditLimit then Some(CreditLimitExceeded)
    else None
  }

  function CardLines(account: Account, amount: int): seq<Line> {
    [Line(account.code, DEBIT, amount), Line(RECEIVABLE, CREDIT, amount)]
  }

  predicate AccountsExist(s: CardState) {
    CodesKnown(s.bank) && forall c :: 0 <= c < |s.cards| ==> s.cards[c].account < |s.bank.accounts|
  }

  /** Post a card movement on account `a`. */
  function CardPosted(h: Hashing, bank: Bank, a: nat, amount: int, reference: string, description: string, at: string): (Bank, Option<BankError>)
    requires CodesKnown(bank) && a < |bank.accounts|
  {
    PostLines(h, bank, EnsureAccount(bank.book, RECEIVABLE, "USD"),
              Posting(reference, description, CardLines(bank.accounts[a], amount), at, ""))
  }

  /**
   `purchase` past its risk gate. A known key replays. The decline row that a failed check writes is rolled
   back with the transaction that writes it.
   */
  function Purchased(h: Hashing, s: CardState, q: PurchaseRequest): (CardState, Result<nat, CardError>)
    requires AccountsExist(s)
  {
    if q.amount <= 0 then (s, Err(NonPositiveAmount))
    else if q.card >= |s.cards| then (s, Err(NoCard))
    else if FindBought(s.marks, q.key).Some? then (s, Ok(FindBought(s.marks, q.key).value))
    else if PurchaseProblem(s, q).Some? then (s, Err(PurchaseProblem(s, q).value))
    else
      var posted := CardPosted(h, s.bank, s.cards[q.card].account, q.amount, q.reference, q.description, q.at);
      var row := |s.purchases|;
      match posted.1
      case Some(e) => (s.(bank := posted.0), Err(CardPostingRefused(e)))
      case None =>
        (s.(bank := posted.0,
            purchases := s.purchases + [Purchase(q.card, q.amount, s.today, false, Some(s.bank.book.nextId))],
            marks := Marked(s.marks, q.key, row)),
         Ok(row))
  }

  /** The row that `purchase` writes when its risk gate declines. */
  function GateDeclined(s: CardState, c: nat, amount: int): CardState
    requires c < |s.cards|
  {
    s.(purchases := s.purchases + [Purchase(c, amount, s.today, true, None)])
  }

  // ----- closing a cycle

  predicate Closable(card: Card) {
    card.kind == CREDIT_CARD && card.status in {CARD_ACTIVE, FROZEN, CARD_BLOCKED, EXPIRED}
  }

  predicate HasStatement(statements: seq<Statement>, c: nat, end: Day) {
    exists i :: 0 <= i < |statements| && IsFor(statements[i], c, end)
  }

  predicate IsFor(t: Statement, c: nat, end: Day) {
    t.card == c && t.cycle.end == end
  }

  function NewStatement(c: nat, cycle: Cycle, amount: int): Statement {
    Statement(c, cycle, amount, AddDays(cycle.end, DUE_DAYS_AFTER_CLOSE), false)
  }

  /** One turn of `close_card_statements`: at most one more statement, for card `c`. */
  function ClosedOne(s: CardState, statements: seq<Statement>, c: nat, cycle: Cycle): seq<Statement>
    requires c < |s.cards|
  {
    var total := Total(Composition(s.purchases, c, cycle));
    if !Closable(s.cards[c]) || total <= 0 || HasStatement(statements, c, cycle.end) then statements
    else statements + [NewStatement(c, cycle, total)]
  }

  /** The statements after the turns for the first `n` cards. */
  function ClosedUpTo(s: CardState, cycle: Cycle, n: nat): seq<Statement>
    requires n <= |s.cards|
  {
    if n == 0 then s.statements else ClosedOne(s, ClosedUpTo(s, cycle, n - 1), n - 1, cycle)
  }

  /** `close_card_statements` */
  function CyclesClosed(s: CardState, reference: Day): CardState {
    s.(statements := ClosedUpTo(s, PreviousCycle(reference), |s.cards|))
  }

  // ----- paying statements

  datatype PaymentRequest = PaymentRequest(
    card: nat, statement: Option<nat>, key: Option<string>, actor: Actor, staff: bool,
    reference: string, description: string, at: string)

  function FindPaid(marks: seq<Mark>, key: Option<string>): (r: Option<int>)
    ensures r.Some? ==> key.Some? && exists i :: 0 <= i < |marks| && marks[i] == Paid(key.value, r.value)
    ensures r.None? && key.Some? ==> forall i :: 0 <= i < |marks| ==> !(marks[i].Paid? && marks[i].key == key.value)
  {
    if key.None? || marks == [] then None
    else if marks[0].Paid? && marks[0].key == key.value then Some(marks[0].total)
    else
      var r := FindPaid(marks[1..], key);
      r
  }

  /** The statement at position `i` is among those that a payment covers. */
  predicate Covered(s: CardState, q: PaymentRequest, i: nat)
    requires i < |s.statements|
  {
    s.statements[i].card == q.card && !s.statements[i].paid && (q.statement.Some? ==> q.statement.value == i)
  }

  function CoveredTotal(s: CardState, q: PaymentRequest, n: nat): int
    requires n <= |s.statements|
  {
    if n == 0 then 0 else CoveredTotal(s, q, n - 1) + (if Covered(s, q, n - 1) then s.statements[n - 1].amount else 0)
  }

  /** `stmts.update(paid=True)` over the first `n` rows. */
  function MarkPaid(s: CardState, q: PaymentRequest, n: nat): (r: seq<Statement>)
    requires n <= |s.statements|
    ensures |r| == n
    ensures forall i :: 0 <= i < n ==> r[i] == (if Covered(s, q, i) then s.statements[i].(paid := true) else s.statements[i])
  {
    if n == 0 then []
    else MarkPaid(s, q, n - 1) + [if Covered(s, q, n - 1) then s.statements[n - 1].(paid := true) else s.statements[n - 1]]
  }

  /** `pay_statement` */
  function StatementsPaid(h: Hashing, s: CardState, q: PaymentRequest): (CardState, Result<int, CardError>)
    requires AccountsExist(s)
  {
    if q.card >= |s.cards| then (s, Err(NoCard))
    else if FindPaid(s.marks, q.key).Some? then (s, Ok(FindPaid(s.marks, q.key).value))
    else
      var account := s.cards[q.card].account;
      if !q.staff && s.bank.accounts[account].owner != q.actor.id then (s, Err(NotOwner))
      else
        var total := CoveredTotal(s, q, |s.statements|);
        if total <= 0 then (s, Err(NoOutstandingStatement))
        else if Available(s.bank, account) < total then (s, Err(CardFundsShort))
        else
          var posted := CardPosted(h, s.bank, account, total, q.reference, q.description, q.at);
          match posted.1
          case Some(e) => (s.(bank := posted.0), Err(CardPostingRefused(e)))
          case None =>
            (s.(bank := posted.0,
                statements := MarkPaid(s, q, |s.statements|),
                marks := if q.key.None? then s.marks else s.marks + [Paid(q.key.value, total)]),
             Ok(total))
  }

  // ----- card controls

  datatype Controls = Controls(
    actor: Actor, staff: bool, status: Option<CardStatus>, txLimit: int, dailyLimit: int, onlineEnabled: bool, internationalEnabled: bool)

  /** `set_card_control`; the credit limit is not among the controls. */
  function ControlsSet(s: CardState, c: nat, k: Controls): (CardState, Option<CardError>)
    requires c < |s.cards| && s.cards[c].account < |s.bank.accounts|
  {
    var card := s.cards[c];
    if !k.staff && s.bank.accounts[card.account].owner != k.actor.id then (s, Some(NotOwner))
    else if card.status == CARD_BLOCKED then (s, Some(CardNotActive(CARD_BLOCKED)))
    else if k.txLimit < 0 || k.dailyLimit < 0 || card.creditLimit < 0 then (s, Some(LimitsNegative))
    else
      var status := if k.status.Some? && k.status.value in {FROZEN, CARD_ACTIVE, CARD_BLOCKED} then k.status.value else card.status;
      (s.(cards := s.cards[c := card.(status := status, txLimit := k.txLimit, dailyLimit := k.dailyLimit,
                                      onlineEnabled := k.onlineEnabled, internationalEnabled := k.internationalEnabled)]), None)
  }
}
