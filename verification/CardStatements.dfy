/**
 Billing statements over time: what one closing produces, that closing again changes nothing, and that a
 closed statement keeps explaining its amount.
 */
module CardStatements {
  import opened Common
  import opened Canonical
  import opened Ledger
  import opened Banking
  import opened Calendar
  import opened Cards
  import opened CardRuns

  // ----- one closing

  lemma HasStatementSnoc(statements: seq<Statement>, t: Statement, c: nat, end: Day)
    ensures HasStatement(statements + [t], c, end) <==> HasStatement(statements, c, end) || IsFor(t, c, end)
  {
    var all := statements + [t];
    if HasStatement(statements, c, end) {
      var i: nat :| i < |statements| && IsFor(statements[i], c, end);
      assert IsFor(all[i], c, end);
    }
    if IsFor(t, c, end) {
      assert IsFor(all[|statements|], c, end);
    }
  }

  /**
   After closing, a card has a statement of the cycle exactly when it had one before, or it is a credit card
   in a closable status with something to bill; no other statements appear.
   */
  lemma {:induction false} ClosingIsComplete(s: CardState, cycle: Cycle, n: nat, c: nat, end: Day)
    requires n <= |s.cards|
    ensures s.statements <= ClosedUpTo(s, cycle, n)
    ensures HasStatement(ClosedUpTo(s, cycle, n), c, end) <==>
              || HasStatement(s.statements, c, end)
              || (c < n && end == cycle.end && Closable(s.cards[c]) && Billable(s.purchases, c, cycle) > 0)
  {
    hide Composition, Total, HasStatement, InCycle;
    if n > 0 {
      var before, after := ClosedUpTo(s, cycle, n - 1), ClosedUpTo(s, cycle, n);
      ClosingIsComplete(s, cycle, n - 1, c, end);
      ClosingIsComplete(s, cycle, n - 1, n - 1, cycle.end);
      if after != before {
        HasStatementSnoc(before, NewStatement(n - 1, cycle, Billable(s.purchases, n - 1, cycle)), c, end);
      }
    }
  }

  lemma {:induction false} NothingLeftToClose(s: CardState, cycle: Cycle, n: nat)
    requires n <= |s.cards|
    requires forall c: nat :: c < n && Closable(s.cards[c]) && Billable(s.purchases, c, cycle) > 0 ==> HasStatement(s.statements, c, cycle.end)
    ensures ClosedUpTo(s, cycle, n) == s.statements
  {
    if n > 0 {
      NothingLeftToClose(s, cycle, n - 1);
    }
  }

  /** Closing twice is closing once, also from another reference date of the same month. */
  lemma ClosingIsIdempotent(s: CardState, reference: Day, again: Day)
    requires MonthIndex(again) == MonthIndex(reference)
    ensures CyclesClosed(CyclesClosed(s, reference), again) == CyclesClosed(s, reference)
  {
    SameMonthSameCycle(reference, again);
    var cycle := PreviousCycle(reference);
    var once := CyclesClosed(s, reference);
    forall c: nat | c < |s.cards| && Closable(s.cards[c]) && Billable(s.purchases, c, cycle) > 0
      ensures HasStatement(once.statements, c, cycle.end)
    {
      ClosingIsComplete(s, cycle, |s.cards|, c, cycle.end);
    }
    NothingLeftToClose(once, cycle, |s.cards|);
  }

  // ----- statements stay

  /** Later, a statement still bills the same; it may have been paid, and stays paid. */
  predicate StaysBilled(t: Statement, u: Statement) {
    u == t.(paid := u.paid) && (t.paid ==> u.paid)
  }

  ghost predicate StatementsStay(a: seq<Statement>, b: seq<Statement>) {
    |a| <= |b| && forall i: nat :: i < |a| ==> StaysBilled(a[i], b[i])
  }

  lemma StayOn(a: seq<Statement>, b: seq<Statement>, c: seq<Statement>)
    requires StatementsStay(a, b) && StatementsStay(b, c)
    ensures StatementsStay(a, c)
  {
    forall i: nat | i < |a|
      ensures StaysBilled(a[i], c[i])
    {
      assert StaysBilled(a[i], b[i]) && StaysBilled(b[i], c[i]);
    }
  }

  lemma StepStays(h: Hashing, s: CardState, step: CardStep)
    requires AccountsExist(s) && AllowedCard(s, step)
    ensures StatementsStay(s.statements, ApplyCard(h, s, step).statements)
  {
    if step.CloseCycle? {
      ClosingIsComplete(s, PreviousCycle(step.reference), |s.cards|, 0, s.today);
    } else {
      hide CardPosted;
    }
  }

  /**
   Over any run with a clock that only moves forward, in which the running month is not closed, every
   statement that was ever closed is still there, and its composition, recomputed from the purchases, sums
   to its amount.
   */
  lemma {:induction false} ClosedStatementsExplained(h: Hashing, s: CardState, steps: seq<CardStep>, i: nat)
    requires CardsOk(s) && i < |s.statements|
    ensures var v := CardAfter(h, s, steps);
            && i < |v.statements| && StaysBilled(s.statements[i], v.statements[i])
            && Total(Composition(v.purchases, v.statements[i].card, v.statements[i].cycle)) == s.statements[i].amount
  {
    CardRunOk(h, s, steps);
    RunStays(h, s, steps);
    var v := CardAfter(h, s, steps);
    assert StaysBilled(s.statements[i], v.statements[i]) && StatementOk(v, v.statements[i]);
  }

  lemma {:induction false} RunStays(h: Hashing, s: CardState, steps: seq<CardStep>)
    requires CardsOk(s)
    ensures StatementsStay(s.statements, CardAfter(h, s, steps).statements)
    decreases |steps|
  {
    if steps != [] {
      hide CardsOk, ApplyCard;
      CardsOkShape(s);
      if AllowedCard(s, steps[0]) {
        var v := ApplyCard(h, s, steps[0]);
        CardStepKeepsOk(h, s, steps[0]);
        StepStays(h, s, steps[0]);
        RunStays(h, v, steps[1..]);
        StayOn(s.statements, v.statements, CardAfter(h, v, steps[1..]).statements);
      } else {
        RunStays(h, s, steps[1..]);
      }
    }
  }

  lemma CardsOkShape(s: CardState)
    requires CardsOk(s)
    ensures AccountsExist(s)
  {
  }

  /**
   The restriction matters: a closing from a reference date in the next month bills a cycle that still
   contains today, and the card's next purchase leaves that statement short for good.
   */
  lemma EarlyClosingFallsShort(h: Hashing, s: CardState, i: nat, q: PurchaseRequest)
    requires AccountsExist(s) && i < |s.statements| && q.card == s.statements[i].card
    requires InCycle(s.today, s.statements[i].cycle)
    requires s.statements[i].amount == Billable(s.purchases, q.card, s.statements[i].cycle)
    requires FindBought(s.marks, q.key).None?
    ensures var r := Purchased(h, s, q);
            r.1.Ok? ==> Billable(r.0.purchases, q.card, r.0.statements[i].cycle) == r.0.statements[i].amount + q.amount > r.0.statements[i].amount
  {
    var r := Purchased(h, s, q);
    if r.1.Ok? {
      BillableSnoc(s.purchases, r.0.purchases[|s.purchases|], q.card, s.statements[i].cycle);
    }
  }

  /** A closing bills a cycle that contains today exactly when its reference date lies in the next month. */
  lemma EarlyMeansNextMonth(reference: Day, today: Day)
    ensures InCycle(today, PreviousCycle(reference)) <==> MonthIndex(reference) == MonthIndex(today) + 1
  {
    CycleIsMonth(reference, today);
  }
}
