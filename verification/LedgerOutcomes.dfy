/**
 Exactly when the ledger accepts a posting or a reversal, and what is in the table after it.
 */
module LedgerOutcomes {
  import opened Common
  import opened Journals
  import opened Canonical
  import opened Ledger
  import opened LedgerRuns
  import opened Accounting

  // ----- posting

  /** The request is taken up: a row is inserted and takes an id, whatever is found wrong with it after that. */
  predicate TakenUp(accounts: Accounts, lines: seq<Line>, declared: string) {
    && lines != []
    && (forall l :: l in lines ==> l.account in accounts)
    && (forall l, m :: l in lines && m in lines ==> accounts[l.account].currency == accounts[m.account].currency)
    && (declared != "" ==> forall l :: l in lines ==> accounts[l.account].currency == declared)
  }

  /** The lines are some positive amounts on active accounts of one currency, and the sides balance. */
  predicate Postable(accounts: Accounts, lines: seq<Line>, declared: string) {
    && TakenUp(accounts, lines, declared)
    && (forall l :: l in lines ==> accounts[l.account].status == LedgerStatus.ACTIVE && l.amount > 0)
    && SumSide(lines, DEBIT) == SumSide(lines, CREDIT)
  }

  lemma {:induction false} NoLineProblemIff(accounts: Accounts, lines: seq<Line>)
    requires LinesKnown(accounts, lines)
    ensures LineProblem(accounts, lines).None? <==>
              forall l :: l in lines ==> accounts[l.account].status == LedgerStatus.ACTIVE && l.amount > 0
  {
    if lines != [] {
      assert forall l :: l in lines[1..] ==> l in lines;
      assert forall l :: l in lines ==> l == lines[0] || l in lines[1..];
      assert lines[0] in lines;
      NoLineProblemIff(accounts, lines[1..]);
    }
  }

  lemma {:induction false} SidesNotNegative(lines: seq<Line>, side: EntrySide)
    requires AllPositive(lines)
    ensures SumSide(lines, side) >= 0
    ensures lines != [] ==> SumSide(lines, DEBIT) + SumSide(lines, CREDIT) > 0
  {
    if lines != [] {
      assert lines[0] in lines && forall l :: l in lines[1..] ==> l in lines;
      SidesNotNegative(lines[1..], side);
      SidesNotNegative(lines[1..], DEBIT);
      SidesNotNegative(lines[1..], CREDIT);
    }
  }

  lemma PostingPassesIff(book: Book, p: Posting)
    requires LinesKnown(book.accounts, p.lines)
    ensures PostProblem(book, p).None? <==>
              Postable(book.accounts, p.lines, p.declared) && forall j :: j in book.journals ==> j.reference != p.reference
  {
    NoLineProblemIff(book.accounts, p.lines);
    if p.lines != [] {
      assert p.lines[0] in p.lines;
      if AllPositive(p.lines) {
        SidesNotNegative(p.lines, DEBIT);
      }
    }
    if forall j :: j in book.journals ==> j.reference != p.reference {
      assert forall i :: 0 <= i < |book.journals| ==> book.journals[i] in book.journals;
    }
  }

  /** The journal says what the caller said, under the next id, and continues the chain. */
  predicate Records(book: Book, p: Posting, j: Journal) {
    && j.id == book.nextId && j.reference == p.reference && j.description == p.description && j.lines == p.lines
    && j.status == POSTED && j.postedAt == p.at
    && (p.lines != [] && p.lines[0].account in book.accounts ==> j.currency == book.accounts[p.lines[0].account].currency)
    && j.previousHash == (if book.journals == [] then GENESIS else book.journals[|book.journals| - 1].chainHash)
  }

  /** An accepted posting adds that one journal; a refused one adds none, but uses up an id if it was taken up. */
  lemma PostingOutcome(h: Hashing, book: Book, p: Posting)
    requires LinesKnown(book.accounts, p.lines)
    ensures var v := PostedBook(h, book, p);
            if Postable(book.accounts, p.lines, p.declared) && (forall j :: j in book.journals ==> j.reference != p.reference) then
              && |v.journals| == |book.journals| + 1 && v.journals[..|book.journals|] == book.journals
              && v == Book(book.nextId + 1, book.accounts, v.journals)
              && Records(book, p, v.journals[|book.journals|]) && v.journals[|book.journals|].reverses == None
            else v == book.(nextId := if TakenUp(book.accounts, p.lines, p.declared) then book.nextId + 1 else book.nextId)
  {
    PostingPassesIff(book, p);
    TakenUpIff(book, p);
    hide Postable, TakenUp;
  }

  lemma TakenUpIff(book: Book, p: Posting)
    requires LinesKnown(book.accounts, p.lines)
    ensures RequestProblem(book, p).None? <==> TakenUp(book.accounts, p.lines, p.declared)
  {
    if p.lines != [] {
      assert p.lines[0] in p.lines;
    }
  }

  // ----- reversing

  lemma {:induction false} MirrorSides(lines: seq<Line>)
    ensures SumSide(Mirror(lines), DEBIT) == SumSide(lines, CREDIT) && SumSide(Mirror(lines), CREDIT) == SumSide(lines, DEBIT)
  {
    if lines != [] {
      assert Mirror(lines)[1..] == Mirror(lines[1..]);
      MirrorSides(lines[1..]);
    }
  }

  lemma MirrorLine(lines: seq<Line>, l: Line)
    ensures l in Mirror(lines) <==> Flip(l) in lines
  {
    assert Flip(Flip(l)) == l;
    if l in Mirror(lines) {
      var i :| 0 <= i < |lines| && Mirror(lines)[i] == l;
      assert Flip(l) == lines[i];
    }
    if Flip(l) in lines {
      var i :| 0 <= i < |lines| && lines[i] == Flip(l);
      assert Mirror(lines)[i] == l;
    }
  }

  predicate AllActive(accounts: Accounts, lines: seq<Line>) {
    forall l :: l in lines ==> l.account in accounts && accounts[l.account].status == LedgerStatus.ACTIVE
  }

  /** The mirror of a posted journal can be posted as long as its accounts are still active. */
  lemma MirrorPostable(accounts: Accounts, j: Journal)
    requires JournalOk(accounts, j)
    ensures Postable(accounts, Mirror(j.lines), "") <==> AllActive(accounts, j.lines)
  {
    MirrorSides(j.lines);
    forall l | l in Mirror(j.lines)
      ensures Flip(l) in j.lines
    {
      MirrorLine(j.lines, l);
    }
    if Postable(accounts, Mirror(j.lines), "") {
      forall l | l in j.lines
        ensures l.account in accounts && accounts[l.account].status == LedgerStatus.ACTIVE
      {
        assert Flip(Flip(l)) == l;
        MirrorLine(j.lines, Flip(l));
      }
    }
  }

  predicate Reversible(book: Book, original: Journal, p: Posting) {
    && (forall j :: j in book.journals ==> j.reverses != Some(original.id) && j.reference != p.reference)
    && AllActive(book.accounts, original.lines)
  }

  /**
   A journal of the table is reversed exactly if it has not been, its accounts are still active, and the
   reference is new. The table then has one more journal, with every line turned round, that names it.
   */
  lemma ReversalOutcome(h: Hashing, book: Book, original: Journal, reference: string, description: string, at: string)
    requires BookOk(h, book) && original in book.journals
    ensures var p := ReversalPosting(original, reference, description, at);
            && LinesKnown(book.accounts, p.lines)
            && var v := ReversedBook(h, book, original, p);
               if Reversible(book, original, p) then
                 && |v.journals| == |book.journals| + 1 && v.journals[..|book.journals|] == book.journals
                 && v == Book(book.nextId + 1, book.accounts, v.journals)
                 && var j := v.journals[|book.journals|];
                    && Records(book, p, j) && j.reverses == Some(original.id) && j.lines == Mirror(original.lines)
                    && j.reference == (if reference == "" then "REV-" + original.reference else reference)
               else v == book.(nextId := v.nextId) && book.nextId <= v.nextId <= book.nextId + 1
  {
    assert JournalOk(book.accounts, original);
    MirrorKnown(book.accounts, original.lines);
    MirrorPostable(book.accounts, original);
    var p := ReversalPosting(original, reference, description, at);
    PostingPassesIff(book, p);
    PostingOutcome(h, book, p);
    hide BookOk, Postable, TakenUp, PostProblem, LinesKnown, AllActive;
    if forall j :: j in book.journals ==> j.reverses != Some(original.id) && j.reference != p.reference {
      assert forall i :: 0 <= i < |book.journals| ==> book.journals[i] in book.journals;
    }
  }
}
