/**
 Balances as sums over posted journals, the trial balance, the effect of reversals, and the
 reconciliation report.
 */
module Accounting {
  import opened Common
  import opened Journals
  import opened Ledger
  import opened LedgerRuns
  import opened ProofBatches
  import opened HashChain
  import Canonical

  function Signed(l: Line): int {
    if l.side == DEBIT then l.amount else -l.amount
  }

  /** Debits minus credits of one account in a list of lines. */
  function NetDebit(lines: seq<Line>, code: string): int {
    if lines == [] then 0
    else (if lines[0].account == code then Signed(lines[0]) else 0) + NetDebit(lines[1..], code)
  }

  /** Debits minus credits of one account over the posted journals of a table. */
  function NetOf(journals: seq<Journal>, code: string): int {
    if journals == [] then 0
    else (if journals[0].status == POSTED then NetDebit(journals[0].lines, code) else 0) + NetOf(journals[1..], code)
  }

  predicate DebitNormal(kind: AccountKind) {
    kind == ASSET || kind == EXPENSE
  }

  /** `account_balance`: derived from posted lines only. */
  function AccountBalance(journals: seq<Journal>, code: string, kind: AccountKind): int {
    if DebitNormal(kind) then NetOf(journals, code) else -NetOf(journals, code)
  }

  /** What the posted journals put on one side of an account. */
  function PostedOn(journals: seq<Journal>, code: string, side: EntrySide): int {
    if journals == [] then 0
    else (if journals[0].status == POSTED then LinesOn(journals[0].lines, code, side) else 0) + PostedOn(journals[1..], code, side)
  }

  function LinesOn(lines: seq<Line>, code: string, side: EntrySide): int {
    if lines == [] then 0
    else (if lines[0].account == code && lines[0].side == side then lines[0].amount else 0) + LinesOn(lines[1..], code, side)
  }

  lemma {:induction false} NetOfLines(lines: seq<Line>, code: string)
    ensures NetDebit(lines, code) == LinesOn(lines, code, DEBIT) - LinesOn(lines, code, CREDIT)
  {
    if lines != [] {
      NetOfLines(lines[1..], code);
    }
  }

  lemma {:induction false} NetOfSides(journals: seq<Journal>, code: string)
    ensures NetOf(journals, code) == PostedOn(journals, code, DEBIT) - PostedOn(journals, code, CREDIT)
  {
    if journals != [] {
      NetOfLines(journals[0].lines, code);
      NetOfSides(journals[1..], code);
    }
  }

  /** Assets and expenses grow by debits, all other accounts by credits; drafts do not count. */
  lemma BalanceBySides(journals: seq<Journal>, code: string, kind: AccountKind)
    ensures var debits, credits := PostedOn(journals, code, DEBIT), PostedOn(journals, code, CREDIT);
            AccountBalance(journals, code, kind) == if kind in {ASSET, EXPENSE} then debits - credits else credits - debits
  {
    NetOfSides(journals, code);
  }

  lemma {:induction false} NetOfAppend(a: seq<Journal>, b: seq<Journal>, code: string)
    ensures NetOf(a + b, code) == NetOf(a, code) + NetOf(b, code)
  {
    if a == [] {
      assert a + b == b;
    } else {
      assert (a + b)[1..] == a[1..] + b;
      NetOfAppend(a[1..], b, code);
    }
  }

  lemma NetOfOne(j: Journal, code: string)
    ensures NetOf([j], code) == if j.status == POSTED then NetDebit(j.lines, code) else 0
  {
    assert [j][1..] == [];
  }

  // ----- the trial balance

  predicate NoDuplicates(codes: seq<string>) {
    forall i, k :: 0 <= i < k < |codes| ==> codes[i] != codes[k]
  }

  function SumNetDebit(codes: seq<string>, lines: seq<Line>): int {
    if codes == [] then 0 else NetDebit(lines, codes[0]) + SumNetDebit(codes[1..], lines)
  }

  function SumNet(codes: seq<string>, journals: seq<Journal>): int {
    if codes == [] then 0 else NetOf(journals, codes[0]) + SumNet(codes[1..], journals)
  }

  /** A line counts once in a list of accounts without duplicates, if at all. */
  lemma {:induction false} SumNetDebitStep(codes: seq<string>, l: Line, rest: seq<Line>)
    requires NoDuplicates(codes)
    ensures SumNetDebit(codes, [l] + rest) == (if l.account in codes then Signed(l) else 0) + SumNetDebit(codes, rest)
  {
    if codes != [] {
      assert ([l] + rest)[1..] == rest;
      assert l.account == codes[0] ==> l.account !in codes[1..];
      SumNetDebitStep(codes[1..], l, rest);
    }
  }

  lemma {:induction false} SumNetDebitOfLines(codes: seq<string>, lines: seq<Line>)
    requires NoDuplicates(codes)
    ensures (forall l :: l in lines ==> l.account in codes) ==>
              SumNetDebit(codes, lines) == SumSide(lines, DEBIT) - SumSide(lines, CREDIT)
    ensures (forall l :: l in lines ==> l.account !in codes) ==> SumNetDebit(codes, lines) == 0
  {
    if lines == [] {
      SumNetDebitEmpty(codes);
    } else {
      assert lines == [lines[0]] + lines[1..];
      assert lines[0] in lines && forall l :: l in lines[1..] ==> l in lines;
      SumNetDebitStep(codes, lines[0], lines[1..]);
      SumNetDebitOfLines(codes, lines[1..]);
    }
  }

  lemma {:induction false} SumNetDebitEmpty(codes: seq<string>)
    ensures SumNetDebit(codes, []) == 0
  {
    if codes != [] {
      SumNetDebitEmpty(codes[1..]);
    }
  }

  lemma {:induction false} SumNetStep(codes: seq<string>, journals: seq<Journal>)
    requires journals != []
    ensures SumNet(codes, journals)
         == (if journals[0].status == POSTED then SumNetDebit(codes, journals[0].lines) else 0) + SumNet(codes, journals[1..])
  {
    if codes != [] {
      SumNetStep(codes[1..], journals);
    }
  }

  lemma {:induction false} SumNetEmpty(codes: seq<string>)
    ensures SumNet(codes, []) == 0
  {
    if codes != [] {
      SumNetEmpty(codes[1..]);
    }
  }

  /** `codes` lists the accounts of one currency. */
  ghost predicate IsChart(accounts: Accounts, codes: seq<string>, currency: string) {
    && NoDuplicates(codes)
    && forall x :: x in codes <==> x in accounts && accounts[x].currency == currency
  }

  lemma {:induction false} ChartNetsToZero(accounts: Accounts, codes: seq<string>, currency: string, journals: seq<Journal>)
    requires IsChart(accounts, codes, currency) && AllOk(accounts, journals)
    ensures SumNet(codes, journals) == 0
  {
    if journals == [] {
      SumNetEmpty(codes);
    } else {
      var j := journals[0];
      assert JournalOk(accounts, j);
      assert forall i :: i in journals[1..] ==> i in journals;
      SumNetStep(codes, journals);
      SumNetDebitOfLines(codes, j.lines);
      ChartNetsToZero(accounts, codes, currency, journals[1..]);
    }
  }

  /** The sum of the balances of the debit-normal, respectively credit-normal, accounts of a chart. */
  function ChartTotal(accounts: Accounts, codes: seq<string>, journals: seq<Journal>, debitNormal: bool): int
    requires forall x :: x in codes ==> x in accounts
  {
    if codes == [] then 0
    else
      var kind := accounts[codes[0]].kind;
      (if DebitNormal(kind) == debitNormal then AccountBalance(journals, codes[0], kind) else 0)
      + ChartTotal(accounts, codes[1..], journals, debitNormal)
  }

  lemma {:induction false} ChartTotalsDiffer(accounts: Accounts, codes: seq<string>, journals: seq<Journal>)
    requires forall x :: x in codes ==> x in accounts
    ensures ChartTotal(accounts, codes, journals, true) - ChartTotal(accounts, codes, journals, false) == SumNet(codes, journals)
  {
    if codes != [] {
      ChartTotalsDiffer(accounts, codes[1..], journals);
    }
  }

  /** Assets and expenses equal liabilities, income and equity, per currency, after every run. */
  lemma TrialBalance(c: Sealing, steps: seq<Step>, codes: seq<string>, currency: string)
    requires IsChart(After(c, Start, steps).book.accounts, codes, currency)
    ensures var book := After(c, Start, steps).book;
            ChartTotal(book.accounts, codes, book.journals, true) == ChartTotal(book.accounts, codes, book.journals, false)
  {
    ReachableLedgerOk(c, steps);
    var book := After(c, Start, steps).book;
    hide After, ReversalsOk, ChainValid, ReferencesUnique, Ascending;
    ChartNetsToZero(book.accounts, codes, currency, book.journals);
    ChartTotalsDiffer(book.accounts, codes, book.journals);
  }

  // ----- reversals

  lemma {:induction false} MirrorNegates(lines: seq<Line>, code: string)
    ensures NetDebit(Mirror(lines), code) == -NetDebit(lines, code)
  {
    if lines != [] {
      MirrorNegates(lines[1..], code);
      assert Mirror(lines)[1..] == Mirror(lines[1..]);
    }
  }

  /** The table without rows `k` and `i`. */
  function Without(journals: seq<Journal>, k: nat, i: nat): seq<Journal>
    requires k < i < |journals|
  {
    journals[..k] + journals[k + 1..i] + journals[i + 1..]
  }

  lemma NetWithout(journals: seq<Journal>, k: nat, i: nat, code: string)
    requires k < i < |journals|
    ensures NetOf(journals, code)
         == NetOf(Without(journals, k, i), code) + NetOf([journals[k]], code) + NetOf([journals[i]], code)
  {
    var a, b, d := journals[..k], journals[k + 1..i], journals[i + 1..];
    assert journals == a + [journals[k]] + b + [journals[i]] + d;
    NetOfAppend(a + [journals[k]] + b + [journals[i]], d, code);
    NetOfAppend(a + [journals[k]] + b, [journals[i]], code);
    NetOfAppend(a + [journals[k]], b, code);
    NetOfAppend(a, [journals[k]], code);
    NetOfAppend(a + b, d, code);
    NetOfAppend(a, b, code);
  }

  /**
   Reversal neutrality. In every reachable ledger a reversing row has one original, which no other row
   reverses, and every account's balance is what it would be without the two rows, whatever was posted
   in between.
   */
  lemma ReversalIsNeutral(c: Sealing, steps: seq<Step>, i: nat) returns (k: nat)
    requires i < |After(c, Start, steps).book.journals| && After(c, Start, steps).book.journals[i].reverses.Some?
    ensures var js := After(c, Start, steps).book.journals;
            && k < i && js[k].id == js[i].reverses.value
            && (forall n :: 0 <= n < |js| && n != i ==> js[n].reverses != js[i].reverses)
            && (forall code, kind :: AccountBalance(js, code, kind) == AccountBalance(Without(js, k, i), code, kind))
  {
    ReachableLedgerOk(c, steps);
    var book := After(c, Start, steps).book;
    k := ReversalOfRow(c.h, book, i);
    var js := book.journals;
    forall n: nat | n < |js| && n != i
      ensures js[n].reverses != js[i].reverses
    {
      assert n < i ==> TargetsDiffer(js, n, i);
      assert i < n ==> TargetsDiffer(js, i, n);
    }
    forall code, kind
      ensures AccountBalance(js, code, kind) == AccountBalance(Without(js, k, i), code, kind)
    {
      PairIsNeutral(js, k, i, code);
    }
  }

  lemma ReversalOfRow(h: Canonical.Hashing, book: Book, i: nat) returns (k: nat)
    requires BookOk(h, book) && i < |book.journals| && book.journals[i].reverses.Some?
    ensures k < i && book.journals[k].id == book.journals[i].reverses.value
    ensures book.journals[i].lines == Mirror(book.journals[k].lines)
    ensures book.journals[i].status == book.journals[k].status == POSTED
  {
    assert ReversesEarlier(book.journals, i);
    k :| k < i && book.journals[k].id == book.journals[i].reverses.value
         && book.journals[i].lines == Mirror(book.journals[k].lines);
    assert JournalOk(book.accounts, book.journals[i]) && JournalOk(book.accounts, book.journals[k]);
  }

  lemma PairIsNeutral(journals: seq<Journal>, k: nat, i: nat, code: string)
    requires k < i < |journals| && journals[k].status == journals[i].status == POSTED
    requires journals[i].lines == Mirror(journals[k].lines)
    ensures NetOf(journals, code) == NetOf(Without(journals, k, i), code)
  {
    NetWithout(journals, k, i, code);
    NetOfOne(journals[k], code);
    NetOfOne(journals[i], code);
    MirrorNegates(journals[k].lines, code);
  }

  // ----- reconciliation

  datatype Customer = Customer(number: string, code: string, kind: AccountKind, blocked: int)

  datatype ReconciliationStatus = RECONCILED | WARNING | FAILED_CHECKS

  datatype Difference =
    | PostedJournalBalance(references: seq<string>)
    | GlobalDebitsCredits(debits: int, credits: int)
    | AccountProjection(numbers: seq<string>)
    | DraftEntriesPresent(count: nat)

  datatype Reconciliation = Reconciliation(
    status: ReconciliationStatus, accountsChecked: nat, balancedJournals: int, differences: seq<Difference>)

  predicate Unbalanced(j: Journal) {
    j.status == POSTED && !Balanced(j.lines)
  }

  /** Total of one side over all posted lines. */
  function PostedTotal(journals: seq<Journal>, side: EntrySide): int {
    if journals == [] then 0
    else (if journals[0].status == POSTED then SumSide(journals[0].lines, side) else 0) + PostedTotal(journals[1..], side)
  }

  lemma {:induction false} BalancedTotals(journals: seq<Journal>)
    requires forall j :: j in journals ==> !Unbalanced(j)
    ensures PostedTotal(journals, DEBIT) == PostedTotal(journals, CREDIT)
  {
    if journals != [] {
      assert journals[0] in journals && forall j :: j in journals[1..] ==> j in journals;
      BalancedTotals(journals[1..]);
    }
  }

  /** Lines that belong to journals still in draft. */
  function DraftLines(journals: seq<Journal>): nat {
    if journals == [] then 0
    else (if journals[0].status == DRAFT then |journals[0].lines| else 0) + DraftLines(journals[1..])
  }

  function LineCount(journals: seq<Journal>): nat {
    if journals == [] then 0 else |journals[0].lines| + LineCount(journals[1..])
  }

  /** Every line is a draft line or belongs to a posted journal. */
  lemma {:induction false} DraftsAreTheRest(journals: seq<Journal>)
    ensures DraftLines(journals) + LineCount(PostedRows(journals)) == LineCount(journals)
  {
    if journals != [] {
      DraftsAreTheRest(journals[1..]);
      var posted := PostedRows(journals);
      assert journals[0].status == POSTED ==> posted == [journals[0]] + PostedRows(journals[1..]);
      assert journals[0].status != POSTED ==> posted == PostedRows(journals[1..]);
    }
  }

  function UnbalancedReferences(journals: seq<Journal>): seq<string> {
    if journals == [] then []
    else if Unbalanced(journals[0]) then [journals[0].reference] + UnbalancedReferences(journals[1..])
    else UnbalancedReferences(journals[1..])
  }

  lemma {:induction false} NoneUnbalanced(journals: seq<Journal>)
    ensures UnbalancedReferences(journals) == [] <==> forall j :: j in journals ==> !Unbalanced(j)
  {
    if journals != [] {
      NoneUnbalanced(journals[1..]);
      assert forall j :: j in journals <==> j == journals[0] || j in journals[1..];
    }
  }

  /** `balance_check`: the two sides of one journal. */
  method BalanceCheck(j: Journal) returns (debits: int, credits: int)
    ensures debits == SumSide(j.lines, DEBIT) && credits == SumSide(j.lines, CREDIT)
  {
    debits, credits := 0, 0;
    for i := 0 to |j.lines|
      invariant debits == SumSide(j.lines[..i], DEBIT) && credits == SumSide(j.lines[..i], CREDIT)
    {
      assert j.lines[..i + 1] == j.lines[..i] + [j.lines[i]];
      SumSideSnoc(j.lines[..i], j.lines[i], DEBIT);
      SumSideSnoc(j.lines[..i], j.lines[i], CREDIT);
      if j.lines[i].side == DEBIT {
        debits := debits + j.lines[i].amount;
      } else {
        credits := credits + j.lines[i].amount;
      }
    }
    assert j.lines[..|j.lines|] == j.lines;
  }

  /** Check 1: the references of the posted journals that do not balance. */
  method CheckJournals(journals: seq<Journal>) returns (unbalanced: seq<string>)
    ensures unbalanced == UnbalancedReferences(journals)
  {
    unbalanced := [];
    for i := 0 to |journals|
      invariant unbalanced + UnbalancedReferences(journals[i..]) == UnbalancedReferences(journals)
    {
      var j := journals[i];
      assert journals[i..][0] == j && journals[i..][1..] == journals[i + 1..];
      var d, c := BalanceCheck(j);
      if j.status == POSTED && d != c {
        unbalanced := unbalanced + [j.reference];
      }
    }
  }

  /** The account numbers with a negative blocked amount. */
  function Overreleased(customers: seq<Customer>): seq<string> {
    if customers == [] then []
    else (if customers[0].blocked < 0 then [customers[0].number] else []) + Overreleased(customers[1..])
  }

  lemma {:induction false} NoneOverreleased(customers: seq<Customer>)
    ensures Overreleased(customers) == [] <==> forall a :: a in customers ==> a.blocked >= 0
  {
    if customers != [] {
      NoneOverreleased(customers[1..]);
      assert forall a :: a in customers <==> a == customers[0] || a in customers[1..];
    }
  }

  /** Check 3: `_raw_account_balance` against the service's balance, and the blocked amount. */
  method CheckAccounts(journals: seq<Journal>, customers: seq<Customer>) returns (mismatched: seq<string>)
    ensures mismatched == Overreleased(customers)
  {
    mismatched := [];
    for i := 0 to |customers|
      invariant mismatched + Overreleased(customers[i..]) == Overreleased(customers)
    {
      var a := customers[i];
      assert customers[i..][0] == a && customers[i..][1..] == customers[i + 1..];
      var expected := RawBalance(journals, a.code, a.kind);
      if expected != AccountBalance(journals, a.code, a.kind) {
        mismatched := mismatched + [a.number];
      }
      if a.blocked < 0 {
        mismatched := mismatched + [a.number];
      }
    }
  }

  /** `_raw_account_balance`: debits and credits of the account are summed separately, then subtracted. */
  method RawBalance(journals: seq<Journal>, code: string, kind: AccountKind) returns (balance: int)
    ensures balance == AccountBalance(journals, code, kind)
  {
    var debits, credits := 0, 0;
    for i := 0 to |journals|
      invariant debits - credits + NetOf(journals[i..], code) == NetOf(journals, code)
    {
      assert journals[i..][0] == journals[i] && journals[i..][1..] == journals[i + 1..];
      var lines := journals[i].lines;
      if journals[i].status == POSTED {
        for k := 0 to |lines|
          invariant debits - credits + NetDebit(lines[k..], code) + NetOf(journals[i + 1..], code) == NetOf(journals, code)
        {
          assert lines[k..][0] == lines[k] && lines[k..][1..] == lines[k + 1..];
          if lines[k].account == code {
            if lines[k].side == DEBIT {
              debits := debits + lines[k].amount;
            } else {
              credits := credits + lines[k].amount;
            }
          }
        }
      }
    }
    balance := if DebitNormal(kind) then debits - credits else credits - debits;
  }

  /**
   `run`. The report is FAILED exactly when a posted journal does not balance or a blocked amount is
   negative: the global totals and the projections can never be the only thing that is wrong. Drafts
   alone give WARNING, and nothing at all gives RECONCILED.
   */
  method Reconcile(journals: seq<Journal>, customers: seq<Customer>) returns (r: Reconciliation)
    ensures r.status == FAILED_CHECKS <==>
              (exists j :: j in journals && j.status == POSTED && SumSide(j.lines, DEBIT) != SumSide(j.lines, CREDIT)) || (exists a :: a in customers && a.blocked < 0)
    ensures r.status == WARNING <==>
              && (forall j :: j in journals && j.status == POSTED ==> SumSide(j.lines, DEBIT) == SumSide(j.lines, CREDIT))
              && (forall a :: a in customers ==> a.blocked >= 0)
              && DraftLines(journals) > 0
    ensures r.status == RECONCILED <==> r.differences == []
    ensures forall d :: d in r.differences <==>
              || (d == PostedJournalBalance(UnbalancedReferences(journals)) && UnbalancedReferences(journals) != [])
              || (d == GlobalDebitsCredits(PostedTotal(journals, DEBIT), PostedTotal(journals, CREDIT))
                  && PostedTotal(journals, DEBIT) != PostedTotal(journals, CREDIT))
              || (d == AccountProjection(Overreleased(customers)) && Overreleased(customers) != [])
              || (d == DraftEntriesPresent(DraftLines(journals)) && DraftLines(journals) > 0)
    ensures r.accountsChecked == |customers|
    ensures r.balancedJournals == |PostedRows(journals)| - |UnbalancedReferences(journals)|
  {
    var failed, warned := false, false;
    var differences: seq<Difference> := [];
    var unbalanced := CheckJournals(journals);
    NoneUnbalanced(journals);
    if unbalanced != [] {
      differences, failed := differences + [PostedJournalBalance(unbalanced)], true;
    } else {
      BalancedTotals(journals);
    }
    var debits, credits := PostedTotal(journals, DEBIT), PostedTotal(journals, CREDIT);
    if debits != credits {
      differences, failed := differences + [GlobalDebitsCredits(debits, credits)], true;
    }
    var mismatched := CheckAccounts(journals, customers);
    NoneOverreleased(customers);
    if mismatched != [] {
      differences, failed := differences + [AccountProjection(mismatched)], true;
    }
    var drafts := DraftLines(journals);
    if drafts > 0 {
      differences, warned := differences + [DraftEntriesPresent(drafts)], true;
    }
    var status := if failed then FAILED_CHECKS else if warned then WARNING else RECONCILED;
    r := Reconciliation(status, |customers|, |PostedRows(journals)| - |unbalanced|, differences);
  }

  /** In every reachable ledger nothing is unbalanced and nothing is in draft, so `run` reports RECONCILED. */
  lemma ReachableReconciles(c: Sealing, steps: seq<Step>)
    ensures var js := After(c, Start, steps).book.journals;
            (forall j :: j in js ==> !Unbalanced(j)) && DraftLines(js) == 0
  {
    ReachableLedgerOk(c, steps);
    var book := After(c, Start, steps).book;
    forall j | j in book.journals
      ensures !Unbalanced(j) && j.status == POSTED
    {
      assert JournalOk(book.accounts, j);
    }
    NoDrafts(book.journals);
  }

  lemma {:induction false} NoDrafts(journals: seq<Journal>)
    requires forall j :: j in journals ==> j.status == POSTED
    ensures DraftLines(journals) == 0
  {
    if journals != [] {
      assert journals[0] in journals && forall j :: j in journals[1..] ==> j in journals;
      NoDrafts(journals[1..]);
    }
  }
}
