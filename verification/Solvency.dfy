/**
 When accounts stay solvent. Every service looks at the funds it takes except `reverse_transfer`, which
 debits the receiver whatever is left there: runs are free of overdrafts exactly as far as each reversal
 finds its amount still with the receiver.
 */
module Solvency {
  import opened Common
  import opened Journals
  import opened Canonical
  import opened Ledger
  import opened LedgerRuns
  import opened Accounting
  import opened Banking
  import opened BankRuns
  import opened BankTheorems

  // ----- one reversal

  /** The receiver, if it is another customer, still has what the reversal of transfer `i` takes back. */
  predicate ReversalCovered(bank: Bank, i: nat) {
    && i < |bank.transfers| && PartiesExist(bank, bank.transfers[i])
    && var t := bank.transfers[i];
       t.destination.None? || t.destination.value == t.source || t.amount <= Available(bank, t.destination.value)
  }

  /** A reversal gives the amount back to the sender and takes it from the receiver. */
  lemma ReversalMoves(h: Hashing, bank: Bank, v: Bank, i: nat, a: nat)
    requires BankOk(h, bank) && i < |bank.transfers| && ReversesRow(bank, v, i) && a < |bank.accounts|
    ensures Available(v, a) == Available(bank, a) - Gain(bank.transfers[i], a)
  {
    var t := bank.transfers[i];
    PartiesApart(h, bank, t, a);
    hide BankOk, Available;
    TwoLinesMove(bank, v, Mirror(TransferLines(bank.accounts, t)), a);
  }

  lemma ReversalSolventIff(h: Hashing, bank: Bank, v: Bank, i: nat)
    requires BankOk(h, bank) && i < |bank.transfers| && ReversesRow(bank, v, i) && Solvent(bank)
    ensures Solvent(v) <==> ReversalCovered(bank, i)
  {
    var t := bank.transfers[i];
    assert t.amount > 0 by {
      assert TransferOk(bank, t);
    }
    forall a: nat | a < |bank.accounts|
      ensures Available(v, a) == Available(bank, a) - Gain(t, a) && Available(bank, a) >= 0
    {
      ReversalMoves(h, bank, v, i, a);
    }
    hide BankOk, Available;
    if t.destination.Some? && Solvent(v) {
      assert Available(v, t.destination.value) >= 0;
    }
  }

  // ----- when a reversal passes

  predicate IsActive(book: Book, code: string) {
    code in book.accounts && book.accounts[code].status == LedgerStatus.ACTIVE
  }

  /** A completed transfer between active ledger accounts, with the reference of its reversal unused. */
  predicate ReversalPasses(bank: Bank, i: nat)
    requires i < |bank.transfers| && PartiesExist(bank, bank.transfers[i])
  {
    var t := bank.transfers[i];
    && t.status == COMPLETED && !ReferenceUsed(bank.book.journals, "REV-" + t.reference)
    && forall l :: l in TransferLines(bank.accounts, t) ==> IsActive(bank.book, l.account)
  }

  lemma ReversalPassesIff(h: Hashing, bank: Bank, i: nat, at: string)
    requires BankOk(h, bank) && i < |bank.transfers| && at != ""
    ensures Ready(bank)
    ensures TransferReversed(h, bank, i, at).1.None? <==> ReversalPasses(bank, i)
  {
    ReadyWhenOk(h, bank);
    var t := bank.transfers[i];
    assert TransferOk(bank, t);
    if t.status == COMPLETED {
      var lines, p := TransferLines(bank.accounts, t), JournalWithId(bank.book.journals, t.journal.value);
      assert p.Some?;
      SameIdSameJournal(h, bank.book, p.value, t.journal.value, lines);
      assert JournalOk(bank.book.accounts, p.value);
      hide BankOk, PostProblem, TransferOk;
      var q := ReversalPosting(p.value, "REV-" + t.reference, "", at);
      assert q.lines == [Flip(lines[0]), Flip(lines[1])];
      assert lines[0] in lines && lines[1] in lines;
      PairProblem(bank.book, q, Flip(lines[0]), Flip(lines[1]));
    }
  }

  // ----- whole runs

  /** The step reverses a transfer, and nothing stops it. */
  predicate Reverses(bank: Bank, step: BankStep) {
    Ready(bank) && step.ReverseRow? && Allowed(bank, step) && ReversalPasses(bank, step.row)
  }

  predicate StepCovered(bank: Bank, step: BankStep) {
    Reverses(bank, step) ==> ReversalCovered(bank, step.row)
  }

  lemma StepSolventIff(h: Hashing, bank: Bank, step: BankStep)
    requires BankOk(h, bank) && AllResting(bank) && Solvent(bank)
    ensures Solvent(NextBank(h, bank, step)) <==> StepCovered(bank, step)
  {
    if Ready(bank) && Allowed(bank, step) {
      BankStepAccounted(h, bank, step);
      if step.ReverseRow? {
        TransferReversedEffect(h, bank, step.row, step.at);
        ReversalPassesIff(h, bank, step.row, step.at);
        var r := TransferReversed(h, bank, step.row, step.at);
        hide BankOk, TransferReversed, ReversalPasses, Solvent, ReversalCovered, ReversesRow, Aborted;
        if r.1.None? {
          ReversalSolventIff(h, bank, r.0, step.row);
        } else {
          AbortedAccounted(bank, r.0.book.nextId);
        }
      }
    }
  }

  /** Every state along the run is solvent. */
  ghost predicate AlwaysSolvent(h: Hashing, bank: Bank, steps: seq<BankStep>) {
    forall n: nat :: n <= |steps| ==> Solvent(BankAfter(h, bank, steps[..n]))
  }

  /** Each reversal that succeeds in the run is covered in the state in which it is made. */
  ghost predicate AllCovered(h: Hashing, bank: Bank, steps: seq<BankStep>) {
    forall n: nat :: n < |steps| ==> StepCovered(BankAfter(h, bank, steps[..n]), steps[n])
  }

  lemma SolventAt(h: Hashing, bank: Bank, steps: seq<BankStep>, n: nat)
    requires BankOk(h, bank) && AllResting(bank) && n < |steps| && Solvent(BankAfter(h, bank, steps[..n]))
    ensures Solvent(BankAfter(h, bank, steps[..n + 1])) <==> StepCovered(BankAfter(h, bank, steps[..n]), steps[n])
  {
    BankRun(h, bank, steps[..n]);
    hide BankOk, AllResting, Solvent, StepCovered;
    BankAfterOneMore(h, bank, steps, n);
    StepSolventIff(h, BankAfter(h, bank, steps[..n]), steps[n]);
  }

  lemma {:induction false} SolventUpTo(h: Hashing, bank: Bank, steps: seq<BankStep>, n: nat)
    requires BankOk(h, bank) && AllResting(bank) && Solvent(bank) && n <= |steps| && AllCovered(h, bank, steps)
    ensures Solvent(BankAfter(h, bank, steps[..n]))
  {
    hide BankOk, AllResting, Solvent, StepCovered;
    if n > 0 {
      SolventUpTo(h, bank, steps, n - 1);
      SolventAt(h, bank, steps, n - 1);
    }
  }

  /** A run from a solvent state is free of overdrafts if and only if every reversal in it is covered. */
  lemma SolventIffCovered(h: Hashing, bank: Bank, steps: seq<BankStep>)
    requires BankOk(h, bank) && AllResting(bank) && Solvent(bank)
    ensures AlwaysSolvent(h, bank, steps) <==> AllCovered(h, bank, steps)
  {
    hide BankOk, AllResting, Solvent, StepCovered, BankAfter;
    if AlwaysSolvent(h, bank, steps) {
      forall n: nat | n < |steps|
        ensures StepCovered(BankAfter(h, bank, steps[..n]), steps[n])
      {
        SolventAt(h, bank, steps, n);
      }
    }
    if AllCovered(h, bank, steps) {
      forall n: nat | n <= |steps|
        ensures Solvent(BankAfter(h, bank, steps[..n]))
      {
        SolventUpTo(h, bank, steps, n);
      }
    }
  }

  predicate NoReversals(steps: seq<BankStep>) {
    forall k :: 0 <= k < |steps| ==> !steps[k].ReverseRow?
  }

  /** In particular, runs without reversals never overdraw. */
  lemma NoOverdraft(h: Hashing, bank: Bank, steps: seq<BankStep>)
    requires BankOk(h, bank) && AllResting(bank) && Solvent(bank) && NoReversals(steps)
    ensures AlwaysSolvent(h, bank, steps)
  {
    SolventIffCovered(h, bank, steps);
  }
}
