/**
 Runs of the card services. `CardsOk` holds in all reachable states: every statement is the sum of its
 cycle's purchases, and the credit in use never leaves the card's limit.
 */
module CardRuns {
  import opened Common
  import opened Canonical
  import opened Ledger
  import opened Banking
  import opened Calendar
  import opened Cards

  // ----- sums

  lemma ApprovedSnoc(purchases: seq<Purchase>, p: Purchase, c: nat)
    ensures SumApproved(purchases + [p], c) == SumApproved(purchases, c) + (if Charged(p, c) then p.amount else 0)
  {
    assert (purchases + [p])[..|purchases|] == purchases;
  }

  lemma CompositionSnoc(purchases: seq<Purchase>, p: Purchase, c: nat, cycle: Cycle)
    ensures Composition(purchases + [p], c, cycle)
         == Composition(purchases, c, cycle) + (if Eligible(p, c, cycle) then [p] else [])
  {
    assert (purchases + [p])[..|purchases|] == purchases;
  }

  lemma TotalSnoc(purchases: seq<Purchase>, p: Purchase)
    ensures Total(purchases + [p]) == Total(purchases) + p.amount
  {
    assert (purchases + [p])[..|purchases|] == purchases;
  }

  /** The amount that the cycle's composition adds up to. */
  function Billable(purchases: seq<Purchase>, c: nat, cycle: Cycle): int {
    Total(Composition(purchases, c, cycle))
  }

  lemma BillableSnoc(purchases: seq<Purchase>, p: Purchase, c: nat, cycle: Cycle)
    ensures Billable(purchases + [p], c, cycle)
         == Billable(purchases, c, cycle) + (if Eligible(p, c, cycle) then p.amount else 0)
  {
    CompositionSnoc(purchases, p, c, cycle);
    if Eligible(p, c, cycle) {
      TotalSnoc(Composition(purchases, c, cycle), p);
    } else {
      assert Composition(purchases, c, cycle) + [] == Composition(purchases, c, cycle);
    }
  }

  lemma StatementsSnoc(statements: seq<Statement>, t: Statement, c: nat, paid: bool)
    ensures SumStatements(statements + [t], c, paid)
         == SumStatements(statements, c, paid) + (if t.card == c && t.paid == paid then t.amount else 0)
  {
    assert (statements + [t])[..|statements|] == statements;
  }

  // ----- the invariant

  predicate PurchaseOk(s: CardState, p: Purchase) {
    && p.card < |s.cards| && NotAfter(p.on, s.today)
    && (p.declined <==> p.journal.None?)
    && (!p.declined ==> p.amount > 0)
  }

  /** A statement bills a past month of a credit card, for what that month's purchases come to. */
  predicate StatementOk(s: CardState, t: Statement) {
    && t.card < |s.cards| && s.cards[t.card].kind == CREDIT_CARD
    && t.cycle == PreviousCycle(NextDay(t.cycle.end)) && MonthIndex(t.cycle.end) < MonthIndex(s.today)
    && t.amount == Billable(s.purchases, t.card, t.cycle) && t.amount > 0
    && t.due == AddDays(t.cycle.end, DUE_DAYS_AFTER_CLOSE)
  }

  predicate StatementsDiffer(statements: seq<Statement>, i: nat, k: nat)
    requires i < |statements| && k < |statements|
  {
    statements[i].card != statements[k].card || statements[i].cycle.end != statements[k].cycle.end
  }

  predicate WithinCredit(s: CardState, c: nat)
    requires c < |s.cards|
  {
    s.cards[c].kind != DEBIT_CARD ==> RawUsed(s, c) <= s.cards[c].creditLimit
  }

  ghost predicate CardsOk(s: CardState) {
    && AccountsExist(s)
    && (forall i: nat :: i < |s.purchases| ==> PurchaseOk(s, s.purchases[i]))
    && (forall i: nat :: i < |s.statements| ==> StatementOk(s, s.statements[i]))
    && (forall i: nat, k: nat :: i < k < |s.statements| ==> StatementsDiffer(s.statements, i, k))
    && (forall c: nat :: c < |s.cards| ==> WithinCredit(s, c))
  }

  // ----- used = unpaid statements + never billed

  predicate Billed(statements: seq<Statement>, c: nat, day: Day) {
    exists i: nat :: i < |statements| && Bills(statements[i], c, day)
  }

  predicate Bills(t: Statement, c: nat, day: Day) {
    t.card == c && InCycle(day, t.cycle)
  }

  /** Approved purchases that no statement covers. */
  function NeverBilled(purchases: seq<Purchase>, statements: seq<Statement>, c: nat): int {
    if purchases == [] then 0
    else
      var p := purchases[|purchases| - 1];
      NeverBilled(purchases[..|purchases| - 1], statements, c)
      + (if Charged(p, c) && !Billed(statements, c, p.on) then p.amount else 0)
  }

  lemma BilledSnoc(statements: seq<Statement>, t: Statement, c: nat, day: Day)
    ensures Billed(statements + [t], c, day) <==> Billed(statements, c, day) || Bills(t, c, day)
  {
    var all := statements + [t];
    if Billed(statements, c, day) {
      var i: nat :| i < |statements| && Bills(statements[i], c, day);
      assert Bills(all[i], c, day);
    }
    if Bills(t, c, day) {
      assert Bills(all[|statements|], c, day);
    }
  }

  /** One more statement takes exactly its composition out of what was never billed. */
  lemma {:induction false} StatementTakes(purchases: seq<Purchase>, statements: seq<Statement>, t: Statement, c: nat)
    requires forall i: nat :: i < |purchases| && !purchases[i].declined ==> purchases[i].journal.Some?
    requires forall i: nat, day: Day :: i < |statements| && t.card == c && Bills(statements[i], c, day) ==> !InCycle(day, t.cycle)
    ensures NeverBilled(purchases, statements + [t], c)
         == NeverBilled(purchases, statements, c) - (if t.card == c then Billable(purchases, c, t.cycle) else 0)
  {
    if purchases != [] {
      var n := |purchases| - 1;
      var p := purchases[n];
      assert forall i: nat :: i < n ==> purchases[..n][i] == purchases[i];
      StatementTakes(purchases[..n], statements, t, c);
      BilledSnoc(statements, t, c, p.on);
      assert purchases == purchases[..n] + [p];
      BillableSnoc(purchases[..n], p, c, t.cycle);
    }
  }

  lemma {:induction false} NothingBilledYet(purchases: seq<Purchase>, c: nat)
    ensures NeverBilled(purchases, [], c) == SumApproved(purchases, c)
  {
    if purchases != [] {
      NothingBilledYet(purchases[..|purchases| - 1], c);
    }
  }

  lemma CyclesApart(s: CardState, i: nat, k: nat, day: Day)
    requires CardsOk(s) && i < |s.statements| && k < |s.statements| && i != k
    requires Bills(s.statements[i], s.statements[k].card, day)
    ensures !InCycle(day, s.statements[k].cycle)
  {
    assert i < k ==> StatementsDiffer(s.statements, i, k);
    assert k < i ==> StatementsDiffer(s.statements, k, i);
    var a, b := s.statements[i].cycle, s.statements[k].cycle;
    assert StatementOk(s, s.statements[i]) && StatementOk(s, s.statements[k]);
    CyclesTile(NextDay(a.end), NextDay(b.end), day);
  }

  /** Approved purchases are the statements, paid and unpaid, and what was never billed. */
  lemma {:induction false} ApprovedExplained(s: CardState, c: nat, n: nat)
    requires CardsOk(s) && n <= |s.statements|
    ensures SumApproved(s.purchases, c)
         == SumStatements(s.statements[..n], c, true) + SumStatements(s.statements[..n], c, false)
            + NeverBilled(s.purchases, s.statements[..n], c)
  {
    if n == 0 {
      NothingBilledYet(s.purchases, c);
    } else {
      hide NeverBilled, SumStatements, SumApproved, Billable, InCycle, PreviousCycle, NextDay;
      var t, before := s.statements[n - 1], s.statements[..n - 1];
      ApprovedExplained(s, c, n - 1);
      assert s.statements[..n] == before + [t];
      assert StatementOk(s, t);
      forall i: nat, day: Day | i < |before| && t.card == c && Bills(before[i], c, day)
        ensures !InCycle(day, t.cycle)
      {
        assert before[i] == s.statements[i];
        CyclesApart(s, i, n - 1, day);
      }
      forall i: nat | i < |s.purchases| && !s.purchases[i].declined
        ensures s.purchases[i].journal.Some?
      {
        assert PurchaseOk(s, s.purchases[i]);
      }
      StatementTakes(s.purchases, before, t, c);
      StatementsSnoc(before, t, c, true);
      StatementsSnoc(before, t, c, false);
    }
  }

  lemma {:induction false} NeverBilledPositive(s: CardState, c: nat, n: nat)
    requires CardsOk(s) && n <= |s.purchases|
    ensures NeverBilled(s.purchases[..n], s.statements, c) >= 0
  {
    if n > 0 {
      assert s.purchases[..n][..n - 1] == s.purchases[..n - 1];
      NeverBilledPositive(s, c, n - 1);
      assert PurchaseOk(s, s.purchases[n - 1]);
    }
  }

  lemma {:induction false} StatementsPositive(s: CardState, c: nat, paid: bool, n: nat)
    requires CardsOk(s) && n <= |s.statements|
    ensures SumStatements(s.statements[..n], c, paid) >= 0
  {
    if n > 0 {
      assert s.statements[..n][..n - 1] == s.statements[..n - 1];
      StatementsPositive(s, c, paid, n - 1);
      assert StatementOk(s, s.statements[n - 1]);
    }
  }

  /**
   The credit in use is the unpaid statements plus the purchases not billed yet. It is never negative, so
   the clamped form agrees with the raw one; and on a card that draws on credit it never exceeds the limit,
   so used and available credit always make up the limit.
   */
  lemma ExposureExplained(s: CardState, c: nat)
    requires CardsOk(s) && c < |s.cards|
    ensures RawUsed(s, c) == Outstanding(s, c) + NeverBilled(s.purchases, s.statements, c)
    ensures Outstanding(s, c) >= 0 && NeverBilled(s.purchases, s.statements, c) >= 0
    ensures CreditUsed(s, c) == RawUsed(s, c)
    ensures s.cards[c].kind != DEBIT_CARD ==>
              0 <= RawUsed(s, c) <= s.cards[c].creditLimit && CreditUsed(s, c) + CreditAvailable(s, c) == s.cards[c].creditLimit
  {
    var n, m := |s.statements|, |s.purchases|;
    assert s.statements[..n] == s.statements && s.purchases[..m] == s.purchases;
    ApprovedExplained(s, c, n);
    NeverBilledPositive(s, c, m);
    StatementsPositive(s, c, false, n);
    assert WithinCredit(s, c);
  }

  // ----- runs

  datatype CardStep =
    | Buy(request: PurchaseRequest)
    | GateDecline(card: nat, amount: int)
    | CloseCycle(reference: Day)
    | PayStatement(payment: PaymentRequest)
    | SetControls(card: nat, controls: Controls)
    | Elsewhere(bank: Bank)
    | NewDate(date: Day)
    | IssueCard(newCard: Card)

  /**
   The clock only moves forward, the month that is running is not closed, and the other services may do to
   the bank whatever they like short of removing accounts.
   */
  predicate AllowedCard(s: CardState, step: CardStep) {
    match step
    case Buy(_) => true
    case GateDecline(c, _) => c < |s.cards|
    case CloseCycle(reference) => MonthIndex(reference) != MonthIndex(s.today) + 1
    case PayStatement(_) => true
    case SetControls(c, _) => c < |s.cards|
    case Elsewhere(bank) => CodesKnown(bank) && |bank.accounts| == |s.bank.accounts|
    case NewDate(date) => NotAfter(s.today, date)
    case IssueCard(card) => card.account < |s.bank.accounts| && card.creditLimit >= 0
  }

  function ApplyCard(h: Hashing, s: CardState, step: CardStep): CardState
    requires AccountsExist(s) && AllowedCard(s, step)
  {
    match step
    case Buy(q) => Purchased(h, s, q).0
    case GateDecline(c, amount) => GateDeclined(s, c, amount)
    case CloseCycle(reference) => CyclesClosed(s, reference)
    case PayStatement(q) => StatementsPaid(h, s, q).0
    case SetControls(c, k) => ControlsSet(s, c, k).0
    case Elsewhere(bank) => s.(bank := bank)
    case NewDate(date) => s.(today := date)
    case IssueCard(card) => s.(cards := s.cards + [card])
  }

  function CardAfter(h: Hashing, s: CardState, steps: seq<CardStep>): CardState
    decreases |steps|
  {
    if steps == [] then s
    else CardAfter(h, if AccountsExist(s) && AllowedCard(s, steps[0]) then ApplyCard(h, s, steps[0]) else s, steps[1..])
  }

  // ----- steps keep the invariant

  lemma PostingKeepsAccounts(h: Hashing, bank: Bank, a: nat, amount: int, reference: string, description: string, at: string)
    requires CodesKnown(bank) && a < |bank.accounts|
    ensures var v := CardPosted(h, bank, a, amount, reference, description, at).0;
            CodesKnown(v) && v.accounts == bank.accounts
  {
  }

  lemma SameRows(s: CardState, v: CardState)
    requires CardsOk(s) && v.purchases == s.purchases && v.statements == s.statements && NotAfter(s.today, v.today)
    requires |v.cards| == |s.cards| && AccountsExist(v)
    requires forall c: nat :: c < |s.cards| ==> v.cards[c].kind == s.cards[c].kind && v.cards[c].creditLimit == s.cards[c].creditLimit
    ensures CardsOk(v)
  {
    BeforeByMonth(s.today, v.today);
    forall i: nat | i < |v.purchases|
      ensures PurchaseOk(v, v.purchases[i])
    {
      assert PurchaseOk(s, s.purchases[i]);
    }
    forall i: nat | i < |v.statements|
      ensures StatementOk(v, v.statements[i])
    {
      assert StatementOk(s, s.statements[i]);
    }
    forall i: nat, k: nat | i < k < |v.statements|
      ensures StatementsDiffer(v.statements, i, k)
    {
      assert StatementsDiffer(s.statements, i, k);
    }
    forall c: nat | c < |v.cards|
      ensures WithinCredit(v, c)
    {
      assert WithinCredit(s, c);
    }
  }

  /** A purchase dated today falls into no closed cycle. */
  lemma NewPurchase(s: CardState, v: CardState, p: Purchase)
    requires CardsOk(s) && v == s.(bank := v.bank, purchases := s.purchases + [p], marks := v.marks) && AccountsExist(v)
    requires PurchaseOk(s, p) && p.on == s.today
    requires !p.declined && s.cards[p.card].kind != DEBIT_CARD ==> RawUsed(s, p.card) + p.amount <= s.cards[p.card].creditLimit
    ensures CardsOk(v)
  {
    forall i: nat | i < |v.purchases|
      ensures PurchaseOk(v, v.purchases[i])
    {
      assert i < |s.purchases| ==> PurchaseOk(s, s.purchases[i]);
    }
    forall i: nat | i < |v.statements|
      ensures StatementOk(v, v.statements[i])
    {
      var t := s.statements[i];
      assert StatementOk(s, t);
      CycleIsMonth(NextDay(t.cycle.end), s.today);
      BillableSnoc(s.purchases, p, t.card, t.cycle);
    }
    forall i: nat, k: nat | i < k < |v.statements|
      ensures StatementsDiffer(v.statements, i, k)
    {
      assert StatementsDiffer(s.statements, i, k);
    }
    forall c: nat | c < |v.cards|
      ensures WithinCredit(v, c)
    {
      assert WithinCredit(s, c);
      ApprovedSnoc(s.purchases, p, c);
    }
  }

  lemma PurchasedKeepsOk(h: Hashing, s: CardState, q: PurchaseRequest)
    requires CardsOk(s)
    ensures CardsOk(Purchased(h, s, q).0)
  {
    if q.amount > 0 && q.card < |s.cards| && FindBought(s.marks, q.key).None? && PurchaseProblem(s, q).None? {
      var v := Purchased(h, s, q).0;
      PostingKeepsAccounts(h, s.bank, s.cards[q.card].account, q.amount, q.reference, q.description, q.at);
      hide CardsOk, CardPosted;
      if Purchased(h, s, q).1.Ok? {
        NewPurchase(s, v, Purchase(q.card, q.amount, s.today, false, Some(s.bank.book.nextId)));
      } else {
        SameRows(s, v);
      }
    }
  }

  // ----- closing

  lemma ReferenceOfCycle(reference: Day)
    ensures var cycle := PreviousCycle(reference);
            cycle == PreviousCycle(NextDay(cycle.end)) && MonthIndex(cycle.end) < MonthIndex(reference)
  {
    CycleIsMonth(reference, reference);
    DayBeforeIsInverse(FirstOfMonth(reference));
  }

  /** A cycle that lies wholly ahead has nothing to bill. */
  lemma {:induction false} NothingBoughtAhead(s: CardState, c: nat, reference: Day, n: nat)
    requires CardsOk(s) && n <= |s.purchases| && MonthIndex(reference) > MonthIndex(s.today) + 1
    ensures Composition(s.purchases[..n], c, PreviousCycle(reference)) == []
  {
    if n > 0 {
      hide PreviousCycle, InCycle;
      var p := s.purchases[n - 1];
      assert s.purchases[..n] == s.purchases[..n - 1] + [p];
      NothingBoughtAhead(s, c, reference, n - 1);
      assert PurchaseOk(s, p);
      BeforeByMonth(p.on, s.today);
      CycleIsMonth(reference, p.on);
      CompositionSnoc(s.purchases[..n - 1], p, c, PreviousCycle(reference));
    }
  }

  lemma ClosedOneKeepsOk(s: CardState, c: nat, reference: Day)
    requires CardsOk(s) && c < |s.cards| && MonthIndex(reference) != MonthIndex(s.today) + 1
    ensures CardsOk(s.(statements := ClosedOne(s, s.statements, c, PreviousCycle(reference))))
  {
    var cycle := PreviousCycle(reference);
    var v := s.(statements := ClosedOne(s, s.statements, c, cycle));
    ReferenceOfCycle(reference);
    if MonthIndex(reference) > MonthIndex(s.today) + 1 {
      NothingBoughtAhead(s, c, reference, |s.purchases|);
      assert s.purchases[..|s.purchases|] == s.purchases;
    }
    if v.statements != s.statements {
      var t := NewStatement(c, cycle, Billable(s.purchases, c, cycle));
      assert v.statements == s.statements + [t];
      forall i: nat | i < |v.purchases|
        ensures PurchaseOk(v, v.purchases[i])
      {
        assert PurchaseOk(s, s.purchases[i]);
      }
      forall i: nat | i < |v.statements|
        ensures StatementOk(v, v.statements[i])
      {
        assert i < |s.statements| ==> StatementOk(s, s.statements[i]);
      }
      forall i: nat, k: nat | i < k < |v.statements|
        ensures StatementsDiffer(v.statements, i, k)
      {
        if k < |s.statements| {
          assert StatementsDiffer(s.statements, i, k);
        } else {
          assert !IsFor(s.statements[i], c, cycle.end);
        }
      }
      forall d: nat | d < |v.cards|
        ensures WithinCredit(v, d)
      {
        assert WithinCredit(s, d);
        StatementsSnoc(s.statements, t, d, true);
      }
    }
  }

  lemma {:induction false} ClosedKeepsOk(s: CardState, reference: Day, n: nat)
    requires CardsOk(s) && n <= |s.cards| && MonthIndex(reference) != MonthIndex(s.today) + 1
    ensures CardsOk(s.(statements := ClosedUpTo(s, PreviousCycle(reference), n)))
  {
    if n > 0 {
      hide CardsOk, PreviousCycle, HasStatement, Total, Composition;
      var before := s.(statements := ClosedUpTo(s, PreviousCycle(reference), n - 1));
      ClosedKeepsOk(s, reference, n - 1);
      ClosedOneKeepsOk(before, n - 1, reference);
    }
  }

  // ----- paying

  /** Marking statements paid moves exactly their total from unpaid to paid. */
  lemma {:induction false} MarkPaidSums(s: CardState, q: PaymentRequest, c: nat, n: nat)
    requires n <= |s.statements|
    ensures var moved := if c == q.card then CoveredTotal(s, q, n) else 0;
            && SumStatements(MarkPaid(s, q, n), c, true) == SumStatements(s.statements[..n], c, true) + moved
            && SumStatements(MarkPaid(s, q, n), c, false) == SumStatements(s.statements[..n], c, false) - moved
  {
    if n > 0 {
      var t := s.statements[n - 1];
      var u := if Covered(s, q, n - 1) then t.(paid := true) else t;
      MarkPaidSums(s, q, c, n - 1);
      assert s.statements[..n] == s.statements[..n - 1] + [t];
      assert MarkPaid(s, q, n) == MarkPaid(s, q, n - 1) + [u];
      StatementsSnoc(s.statements[..n - 1], t, c, true);
      StatementsSnoc(s.statements[..n - 1], t, c, false);
      StatementsSnoc(MarkPaid(s, q, n - 1), u, c, true);
      StatementsSnoc(MarkPaid(s, q, n - 1), u, c, false);
    }
  }

  /** A payment settles exactly what it charges: the credit in use and the open invoices drop by its total. */
  lemma PaymentReleasesCredit(h: Hashing, s: CardState, q: PaymentRequest)
    requires AccountsExist(s) && q.card < |s.cards| && FindPaid(s.marks, q.key).None?
    ensures var r := StatementsPaid(h, s, q);
            r.1.Ok? ==>
              && RawUsed(r.0, q.card) == RawUsed(s, q.card) - r.1.value
              && Outstanding(r.0, q.card) == Outstanding(s, q.card) - r.1.value
              && 0 < r.1.value <= Available(s.bank, s.cards[q.card].account)
              && (forall c: nat :: c < |s.cards| && c != q.card ==> RawUsed(r.0, c) == RawUsed(s, c))
  {
    var n := |s.statements|;
    assert s.statements[..n] == s.statements;
    MarkPaidSums(s, q, q.card, n);
    forall c: nat | c < |s.cards| && c != q.card
      ensures SumStatements(MarkPaid(s, q, n), c, true) == SumStatements(s.statements, c, true)
    {
      MarkPaidSums(s, q, c, n);
    }
  }

  /** Either only the bank has changed, or the covered statements are marked paid. */
  lemma PaidShape(h: Hashing, s: CardState, q: PaymentRequest)
    requires AccountsExist(s)
    ensures var r := StatementsPaid(h, s, q);
            && AccountsExist(r.0)
            && (r.0 == s.(bank := r.0.bank)
                || (r.1.Ok? && q.card < |s.cards| && FindPaid(s.marks, q.key).None?
                    && r.0 == s.(bank := r.0.bank, statements := MarkPaid(s, q, |s.statements|), marks := r.0.marks)))
  {
    if q.card < |s.cards| {
      PostingKeepsAccounts(h, s.bank, s.cards[q.card].account, CoveredTotal(s, q, |s.statements|), q.reference, q.description, q.at);
    }
    hide CardPosted, MarkPaid, CoveredTotal, FindPaid, BalanceOf;
  }

  lemma PaidKeepsOk(h: Hashing, s: CardState, q: PaymentRequest)
    requires CardsOk(s)
    ensures CardsOk(StatementsPaid(h, s, q).0)
  {
    PaidShape(h, s, q);
    var v := StatementsPaid(h, s, q).0;
    if v == s.(bank := v.bank) {
      SameRows(s, v);
    } else {
      PaymentReleasesCredit(h, s, q);
      hide CardsOk, StatementsPaid;
      PaidRows(s, v, q);
    }
  }

  lemma PaidRows(s: CardState, v: CardState, q: PaymentRequest)
    requires CardsOk(s) && AccountsExist(v)
    requires v == s.(bank := v.bank, statements := MarkPaid(s, q, |s.statements|), marks := v.marks)
    requires forall c: nat :: c < |s.cards| ==> RawUsed(v, c) <= RawUsed(s, c)
    ensures CardsOk(v)
  {
    hide Billable, InCycle, AddDays, SumStatements, SumApproved, PreviousCycle, NextDay;
    forall i: nat | i < |v.purchases|
      ensures PurchaseOk(v, v.purchases[i])
    {
      assert PurchaseOk(s, s.purchases[i]);
    }
    forall i: nat | i < |v.statements|
      ensures StatementOk(v, v.statements[i])
    {
      assert StatementOk(s, s.statements[i]);
    }
    forall i: nat, k: nat | i < k < |v.statements|
      ensures StatementsDiffer(v.statements, i, k)
    {
      assert StatementsDiffer(s.statements, i, k);
    }
    forall c: nat | c < |v.cards|
      ensures WithinCredit(v, c)
    {
      assert WithinCredit(s, c);
    }
  }

  lemma {:induction false} NothingBought(s: CardState, c: nat, n: nat)
    requires CardsOk(s) && c >= |s.cards| && n <= |s.purchases|
    ensures SumApproved(s.purchases[..n], c) == 0
  {
    if n > 0 {
      assert s.purchases[..n][..n - 1] == s.purchases[..n - 1];
      NothingBought(s, c, n - 1);
      assert PurchaseOk(s, s.purchases[n - 1]);
    }
  }

  lemma {:induction false} NothingPaid(s: CardState, c: nat, n: nat)
    requires CardsOk(s) && c >= |s.cards| && n <= |s.statements|
    ensures SumStatements(s.statements[..n], c, true) == 0
  {
    if n > 0 {
      assert s.statements[..n][..n - 1] == s.statements[..n - 1];
      NothingPaid(s, c, n - 1);
      assert StatementOk(s, s.statements[n - 1]);
    }
  }

  lemma CardIssued(s: CardState, v: CardState)
    requires CardsOk(s) && v == s.(cards := v.cards) && |v.cards| == |s.cards| + 1 && v.cards[..|s.cards|] == s.cards
    requires v.cards[|s.cards|].account < |s.bank.accounts| && v.cards[|s.cards|].creditLimit >= 0
    ensures CardsOk(v)
  {
    var n, m := |s.purchases|, |s.statements|;
    assert s.purchases[..n] == s.purchases && s.statements[..m] == s.statements;
    NothingBought(s, |s.cards|, n);
    NothingPaid(s, |s.cards|, m);
    assert forall c: nat :: c < |s.cards| ==> v.cards[c] == s.cards[c];
    hide SumApproved, SumStatements, Billable, InCycle, PreviousCycle, NextDay;
    forall i: nat | i < |v.purchases|
      ensures PurchaseOk(v, v.purchases[i])
    {
      assert PurchaseOk(s, s.purchases[i]);
    }
    forall i: nat | i < |v.statements|
      ensures StatementOk(v, v.statements[i])
    {
      assert StatementOk(s, s.statements[i]);
    }
    forall c: nat | c < |v.cards|
      ensures WithinCredit(v, c)
    {
      assert c < |s.cards| ==> WithinCredit(s, c);
    }
  }

  /** Before the first purchase the invariant holds. */
  lemma NothingBoughtYet(bank: Bank, cards: seq<Card>, today: Day)
    requires CodesKnown(bank)
    requires forall c :: 0 <= c < |cards| ==> cards[c].account < |bank.accounts| && cards[c].creditLimit >= 0
    ensures CardsOk(CardState(bank, cards, [], [], [], today))
  {
    var s := CardState(bank, cards, [], [], [], today);
    forall c: nat | c < |cards|
      ensures WithinCredit(s, c)
    {
      assert cards[c].creditLimit >= 0;
    }
  }

  lemma CardStepKeepsOk(h: Hashing, s: CardState, step: CardStep)
    requires CardsOk(s) && AllowedCard(s, step)
    ensures CardsOk(ApplyCard(h, s, step))
  {
    var v := ApplyCard(h, s, step);
    match step {
      case Buy(q) => PurchasedKeepsOk(h, s, q);
      case GateDecline(c, amount) => NewPurchase(s, v, Purchase(c, amount, s.today, true, None));
      case CloseCycle(reference) => ClosedKeepsOk(s, reference, |s.cards|);
      case PayStatement(q) => PaidKeepsOk(h, s, q);
      case SetControls(c, k) => SameRows(s, v);
      case Elsewhere(bank) => SameRows(s, v);
      case NewDate(date) => SameRows(s, v);
      case IssueCard(card) => CardIssued(s, v);
    }
  }

  /** Every reachable state is sound, so `ExposureExplained` holds in all of them. */
  lemma {:induction false} CardRunOk(h: Hashing, s: CardState, steps: seq<CardStep>)
    requires CardsOk(s)
    ensures CardsOk(CardAfter(h, s, steps))
    decreases |steps|
  {
    if steps != [] {
      if AllowedCard(s, steps[0]) {
        CardStepKeepsOk(h, s, steps[0]);
        CardRunOk(h, ApplyCard(h, s, steps[0]), steps[1..]);
      } else {
        CardRunOk(h, s, steps[1..]);
      }
    }
  }
}
