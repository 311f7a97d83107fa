/**
 Posting and reversing journals. `Book` is the state of the ledger tables; `PostedBook` and
 `ReversedBook` are what the two services do to it, and class `LedgerService` is the service itself.
 */
module Ledger {
  import opened Common
  import opened Journals
  import opened Canonical

  datatype AccountKind = ASSET | LIABILITY | INCOME | EXPENSE | EQUITY

  datatype LedgerStatus = ACTIVE | BLOCKED | CLOSED

  datatype LedgerAccount = LedgerAccount(kind: AccountKind, currency: string, status: LedgerStatus)

  type Accounts = map<string, LedgerAccount>

  /** `journals` holds the posted rows in id order; `nextId` is the id sequence, which never goes back. */
  datatype Book = Book(nextId: nat, accounts: Accounts, journals: seq<Journal>)

  datatype PostError =
    | NoPostings
    | MixedCurrencies
    | DeclaredCurrencyDiffers
    | ReferenceTaken
    | AccountNotActive(code: string)
    | AmountNotPositive
    | Unbalanced

  datatype ReverseError = NotPosted | AlreadyReversed | PostingFailed(error: PostError)

  /** A posting as the caller asks for it; `declared` is "" when no currency is declared. */
  datatype Posting = Posting(reference: string, description: string, lines: seq<Line>, at: string, declared: string)

  // ----- the checks of post_journal, in their order

  predicate LinesKnown(accounts: Accounts, lines: seq<Line>) {
    forall l :: l in lines ==> l.account in accounts
  }

  predicate AllInCurrency(accounts: Accounts, lines: seq<Line>, currency: string)
    requires LinesKnown(accounts, lines)
  {
    forall l :: l in lines ==> accounts[l.account].currency == currency
  }

  /** The currency of a posting is that of its first line. */
  function CurrencyOf(accounts: Accounts, lines: seq<Line>): string
    requires LinesKnown(accounts, lines) && lines != []
  {
    accounts[lines[0].account].currency
  }

  /** The first line that the posting loop refuses: an inactive account, or an amount that is not positive. */
  function LineProblem(accounts: Accounts, lines: seq<Line>): Option<PostError>
    requires LinesKnown(accounts, lines)
  {
    if lines == [] then None
    else if accounts[lines[0].account].status != ACTIVE then Some(AccountNotActive(lines[0].account))
    else if lines[0].amount <= 0 then Some(AmountNotPositive)
    else LineProblem(accounts, lines[1..])
  }

  predicate ReferenceUsed(journals: seq<Journal>, reference: string) {
    exists i :: 0 <= i < |journals| && journals[i].reference == reference
  }

  /** Refusals before anything is written. */
  function RequestProblem(book: Book, p: Posting): Option<PostError>
    requires LinesKnown(book.accounts, p.lines)
  {
    if p.lines == [] then Some(NoPostings)
    else if !AllInCurrency(book.accounts, p.lines, CurrencyOf(book.accounts, p.lines)) then Some(MixedCurrencies)
    else if p.declared != "" && p.declared != CurrencyOf(book.accounts, p.lines) then Some(DeclaredCurrencyDiffers)
    else None
  }

  /** Refusals after the row was inserted: everything rolls back, but the id that the row took is gone. */
  function RowProblem(book: Book, p: Posting): Option<PostError>
    requires LinesKnown(book.accounts, p.lines)
  {
    if ReferenceUsed(book.journals, p.reference) then Some(ReferenceTaken)
    else if LineProblem(book.accounts, p.lines).Some? then LineProblem(book.accounts, p.lines)
    else if SumSide(p.lines, DEBIT) != SumSide(p.lines, CREDIT) || SumSide(p.lines, DEBIT) == 0 then Some(Unbalanced)
    else None
  }

  function PostProblem(book: Book, p: Posting): Option<PostError>
    requires LinesKnown(book.accounts, p.lines)
  {
    if RequestProblem(book, p).Some? then RequestProblem(book, p) else RowProblem(book, p)
  }

  function Tip(journals: seq<Journal>): string {
    if journals == [] then GENESIS else journals[|journals| - 1].chainHash
  }

  function Chained(h: Hashing, previous: string, draft: Journal): Journal {
    var payload := PayloadHash(h, draft);
    draft.(payloadHash := payload, previousHash := previous, chainHash := ChainHash(h, previous, payload))
  }

  function NewJournal(h: Hashing, book: Book, p: Posting): Journal
    requires LinesKnown(book.accounts, p.lines) && p.lines != []
  {
    Chained(h, Tip(book.journals),
      Journal(book.nextId, p.reference, p.description, CurrencyOf(book.accounts, p.lines), POSTED, p.at,
              p.lines, "", "", "", None))
  }

  function PostedBook(h: Hashing, book: Book, p: Posting): Book
    requires LinesKnown(book.accounts, p.lines)
  {
    if RequestProblem(book, p).Some? then book
    else if RowProblem(book, p).Some? then book.(nextId := book.nextId + 1)
    else book.(nextId := book.nextId + 1, journals := book.journals + [NewJournal(h, book, p)])
  }

  // ----- reversing

  function Flip(l: Line): Line {
    l.(side := if l.side == DEBIT then CREDIT else DEBIT)
  }

  function Mirror(lines: seq<Line>): (r: seq<Line>)
    ensures |r| == |lines|
    ensures forall i :: 0 <= i < |r| ==> r[i] == Flip(lines[i])
  {
    if lines == [] then [] else [Flip(lines[0])] + Mirror(lines[1..])
  }

  predicate IsReversed(journals: seq<Journal>, id: nat) {
    exists i :: 0 <= i < |journals| && journals[i].reverses == Some(id)
  }

  function ReversalPosting(original: Journal, reference: string, description: string, at: string): Posting {
    Posting(if reference == "" then "REV-" + original.reference else reference,
            if description == "" then "Reversal of " + original.reference else description,
            Mirror(original.lines), at, "")
  }

  function ReverseProblem(book: Book, original: Journal, p: Posting): Option<ReverseError>
    requires LinesKnown(book.accounts, p.lines)
  {
    if original.status != POSTED then Some(NotPosted)
    else if IsReversed(book.journals, original.id) then Some(AlreadyReversed)
    else match PostProblem(book, p)
      case None => None
      case Some(e) => Some(PostingFailed(e))
  }

  function LinkLast(journals: seq<Journal>, id: nat): seq<Journal>
    requires journals != []
  {
    journals[|journals| - 1 := journals[|journals| - 1].(reverses := Some(id))]
  }

  function Linked(book: Book, id: nat): Book
    requires book.journals != []
  {
    book.(journals := LinkLast(book.journals, id))
  }

  function ReversedBook(h: Hashing, book: Book, original: Journal, p: Posting): Book
    requires LinesKnown(book.accounts, p.lines)
  {
    match ReverseProblem(book, original, p)
    case None => Linked(PostedBook(h, book, p), original.id)
    case Some(e) => if e.PostingFailed? then PostedBook(h, book, p) else book
  }

  // ----- the services

  /** The posting loop: entries are added one by one while the two sides are summed up. */
  method AddEntries(accounts: Accounts, lines: seq<Line>)
    returns (problem: Option<PostError>, debits: int, credits: int)
    requires LinesKnown(accounts, lines)
    ensures problem == LineProblem(accounts, lines)
    ensures problem.None? ==> debits == SumSide(lines, DEBIT) && credits == SumSide(lines, CREDIT)
  {
    debits, credits := 0, 0;
    for i := 0 to |lines|
      invariant debits == SumSide(lines[..i], DEBIT) && credits == SumSide(lines[..i], CREDIT)
      invariant LineProblem(accounts, lines) == LineProblem(accounts, lines[i..])
    {
      var line := lines[i];
      assert lines[i..][0] == line && lines[i..][1..] == lines[i + 1..];
      assert lines[..i + 1] == lines[..i] + [line];
      SumSideSnoc(lines[..i], line, DEBIT);
      SumSideSnoc(lines[..i], line, CREDIT);
      if accounts[line.account].status != ACTIVE {
        return Some(AccountNotActive(line.account)), debits, credits;
      }
      if line.amount <= 0 {
        return Some(AmountNotPositive), debits, credits;
      }
      if line.side == DEBIT {
        debits := debits + line.amount;
      } else {
        credits := credits + line.amount;
      }
    }
    assert lines[..|lines|] == lines;
    problem := None;
  }

  class LedgerService {
    const h: Hashing
    var nextId: nat
    var accounts: Accounts
    var journals: seq<Journal>

    constructor (h: Hashing)
      ensures this.h == h && State() == Book(0, map[], [])
    {
      this.h := h;
      nextId, accounts, journals := 0, map[], [];
    }

    function State(): Book
      reads this
    {
      Book(nextId, accounts, journals)
    }

    /** `get_or_create_account`: an existing account is returned as it is. */
    method GetOrCreateAccount(code: string, kind: AccountKind, currency: string)
      modifies this`accounts
      ensures accounts == if code in old(accounts) then old(accounts)
                          else old(accounts)[code := LedgerAccount(kind, currency, ACTIVE)]
    {
      if code !in accounts {
        accounts := accounts[code := LedgerAccount(kind, currency, ACTIVE)];
      }
    }

    method PostJournal(p: Posting) returns (r: Result<Journal, PostError>)
      requires LinesKnown(accounts, p.lines)
      modifies this`nextId, this`journals
      ensures State() == PostedBook(h, old(State()), p)
      ensures r == match PostProblem(old(State()), p)
                   case None => Ok(NewJournal(h, old(State()), p))
                   case Some(e) => Err(e)
    {
      ghost var book := State();
      if p.lines == [] {
        return Err(NoPostings);
      }
      var currency := accounts[p.lines[0].account].currency;
      if !AllInCurrency(accounts, p.lines, currency) {
        return Err(MixedCurrencies);
      }
      if p.declared != "" && p.declared != currency {
        return Err(DeclaredCurrencyDiffers);
      }
      assert RequestProblem(book, p).None?;
      var id := nextId;
      nextId := nextId + 1;
      if ReferenceUsed(journals, p.reference) {
        return Err(ReferenceTaken);
      }
      var problem, debits, credits := AddEntries(accounts, p.lines);
      if problem.Some? {
        return Err(problem.value);
      }
      if debits != credits || debits == 0 {
        return Err(Unbalanced);
      }
      assert RowProblem(book, p).None?;
      var draft := Journal(id, p.reference, p.description, currency, POSTED, p.at, p.lines, "", "", "", None);
      var journal := Chained(h, Tip(journals), draft);
      assert journal == NewJournal(h, book, p);
      journals := journals + [journal];
      r := Ok(journal);
    }

    method ReverseJournal(original: Journal, reference: string, description: string, at: string)
      returns (r: Result<Journal, ReverseError>)
      requires original in journals && LinesKnown(accounts, original.lines)
      modifies this`nextId, this`journals
      ensures LinesKnown(old(accounts), Mirror(original.lines))
      ensures State() == ReversedBook(h, old(State()), original, ReversalPosting(original, reference, description, at))
      ensures ReverseProblem(old(State()), original, ReversalPosting(original, reference, description, at))
           == if r.Ok? then None else Some(r.error)
      ensures r.Ok? ==> journals != [] && r.value == journals[|journals| - 1]
    {
      MirrorKnown(accounts, original.lines);
      if original.status != POSTED {
        return Err(NotPosted);
      }
      if IsReversed(journals, original.id) {
        return Err(AlreadyReversed);
      }
      var posted := PostJournal(ReversalPosting(original, reference, description, at));
      if posted.Err? {
        return Err(PostingFailed(posted.error));
      }
      journals := LinkLast(journals, original.id);
      r := Ok(journals[|journals| - 1]);
    }
  }

  lemma MirrorKnown(accounts: Accounts, lines: seq<Line>)
    requires LinesKnown(accounts, lines)
    ensures LinesKnown(accounts, Mirror(lines))
  {
    forall l | l in Mirror(lines)
      ensures l.account in accounts
    {
      var i :| 0 <= i < |lines| && Mirror(lines)[i] == l;
      assert lines[i] in lines;
    }
  }
}
