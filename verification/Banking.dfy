/**
 Money movement over the ledger: funding, transfers (immediate, scheduled, reviewed, reversed) and bill
 payments. `Bank` is the state of the tables involved; the functions below say what each service does
 to it, all or nothing.
 */
module Banking {
  import opened Common
  import opened Journals
  import opened Canonical
  import opened Ledger
  import opened Accounting

  datatype CustomerStatus = ACTIVE | BLOCKED | SUSPENDED | CLOSED

  /** A customer account; `code` names the ledger account behind it. Amounts are in cents. */
  datatype Account = Account(
    owner: nat, code: string, status: CustomerStatus, currency: string, txLimit: int, dailyLimit: int, blocked: int)

  datatype Beneficiary = Beneficiary(owner: nat, verified: bool, currency: string)

  datatype TransferStatus = CREATED | PENDING | PROCESSING | COMPLETED | FAILED | CANCELED | REVERSED | UNDER_REVIEW

  datatype Transfer = Transfer(
    reference: string,
    key: string,
    source: nat,
    destination: Option<nat>,
    amount: int,
    status: TransferStatus,
    journal: Option<nat>,
    createdAt: nat,
    scheduledFor: Option<nat>)

  datatype Payment = Payment(bill: nat, account: nat, amount: int, key: string, journal: nat)

  /** A funding that was executed under an idempotency key. */
  datatype Record = Record(key: string, journal: nat, amount: int)

  datatype Bank = Bank(
    book: Book,
    accounts: seq<Account>,
    beneficiaries: seq<Beneficiary>,
    bills: seq<int>,
    transfers: seq<Transfer>,
    payments: seq<Payment>,
    records: seq<Record>)

  datatype Actor = Actor(id: nat, isCustomer: bool)

  datatype BankError =
    | InvalidAmount | Forbidden | NotActive | CurrencyMismatch | BeneficiaryUnverified
    | TxLimitExceeded | DailyLimitExceeded | InsufficientFunds | NotFound
    | DuplicateReference | DuplicateKey | BillAlreadyPaid | NotReversible | NotPendingApproval
    | IllegalTransition | PostingRefused(post: PostError) | ReversalRefused(reverse: ReverseError)

  const CLEARING := "1000-BANK-CLEARING"
  const FUNDING := "9100-SYSTEM-FUNDING"
  const PAYMENT_INCOME := "4000-PAYMENT-INCOME"
  const MICROSECONDS_PER_DAY := 86400000000

  // ----- the transfer state machine

  /** `ALLOWED_TRANSITIONS` */
  function AllowedNext(s: TransferStatus): set<TransferStatus> {
    match s
    case CREATED => {PENDING, PROCESSING, FAILED, CANCELED}
    case PENDING => {PROCESSING, FAILED, CANCELED, UNDER_REVIEW}
    case PROCESSING => {COMPLETED, FAILED, UNDER_REVIEW}
    case UNDER_REVIEW => {PROCESSING, FAILED, CANCELED}
    case COMPLETED => {REVERSED}
    case FAILED => {}
    case CANCELED => {}
    case REVERSED => {}
  }

  function Transition(t: Transfer, next: TransferStatus): Option<Transfer> {
    if next in AllowedNext(t.status) then Some(t.(status := next)) else None
  }

  // ----- balances

  /** `current_balance`: customer accounts are liabilities. */
  function BalanceOf(bank: Bank, a: nat): int
    requires a < |bank.accounts|
  {
    AccountBalance(bank.book.journals, bank.accounts[a].code, LIABILITY)
  }

  function Available(bank: Bank, a: nat): int
    requires a < |bank.accounts|
  {
    BalanceOf(bank, a) - bank.accounts[a].blocked
  }

  function DayStart(now: nat): nat {
    now / MICROSECONDS_PER_DAY * MICROSECONDS_PER_DAY
  }

  /** `daily_outflow_total`: what left the account by transfers created today and completed. */
  function OutflowToday(transfers: seq<Transfer>, a: nat, now: nat): int {
    if transfers == [] then 0
    else
      var t := transfers[0];
      (if t.source == a && t.status == COMPLETED
          && DayStart(now) <= t.createdAt <= DayStart(now) + MICROSECONDS_PER_DAY then t.amount else 0)
      + OutflowToday(transfers[1..], a, now)
  }

  // ----- settling

  function EnsureAccount(book: Book, code: string, currency: string): Book {
    if code in book.accounts then book
    else book.(accounts := book.accounts[code := LedgerAccount(ASSET, currency, LedgerStatus.ACTIVE)])
  }

  /** Sender's liability down; receiver's liability up, or the clearing account for an external transfer. */
  function TransferLines(accounts: seq<Account>, t: Transfer): seq<Line>
    requires t.source < |accounts| && (t.destination.Some? ==> t.destination.value < |accounts|)
  {
    [Line(accounts[t.source].code, DEBIT, t.amount),
     Line(if t.destination.Some? then accounts[t.destination.value].code else CLEARING, CREDIT, t.amount)]
  }

  predicate CodesKnown(bank: Bank) {
    forall a :: a in bank.accounts ==> a.code in bank.book.accounts
  }

  predicate PartiesExist(bank: Bank, t: Transfer) {
    t.source < |bank.accounts| && (t.destination.Some? ==> t.destination.value < |bank.accounts|)
  }

  /** The state after an aborted transaction: nothing changed but the ids that were handed out. */
  function Aborted(bank: Bank, nextId: nat): Bank {
    bank.(book := bank.book.(nextId := nextId))
  }

  /** `post_journal` inside a service: the posted journal is the last one of the new book. */
  function PostLines(h: Hashing, bank: Bank, book: Book, p: Posting): (Bank, Option<BankError>)
    requires LinesKnown(book.accounts, p.lines)
  {
    var posted := PostedBook(h, book, p);
    match PostProblem(book, p)
    case None => (bank.(book := posted), None)
    case Some(e) => (Aborted(bank, posted.nextId), Some(PostingRefused(e)))
  }

  /** `_settle` for transfer `i`; two transitions follow the posting, and either may be illegal. */
  function Settled(h: Hashing, bank: Bank, i: nat, at: string): (Bank, Option<BankError>)
    requires i < |bank.transfers| && PartiesExist(bank, bank.transfers[i]) && CodesKnown(bank)
  {
    var t := bank.transfers[i];
    var book := EnsureAccount(bank.book, CLEARING, "USD");
    var posted := PostLines(h, bank, book, Posting(t.reference, "Transfer " + t.reference, TransferLines(bank.accounts, t), at, ""));
    if posted.1.Some? then posted
    else
      var processing := Transition(t.(journal := Some(bank.book.nextId)), PROCESSING);
      if processing.None? then (Aborted(bank, posted.0.book.nextId), Some(IllegalTransition))
      else
        // PROCESSING may always go on to COMPLETED
        (posted.0.(transfers := bank.transfers[i := processing.value.(status := COMPLETED)]), None)
  }

  // ----- executing a transfer

  datatype TransferRequest = TransferRequest(
    reference: string,
    key: string,
    source: nat,
    destination: Option<nat>,
    beneficiary: Option<nat>,
    amount: int,
    scheduledFor: Option<nat>,
    underReview: bool,
    at: string,
    now: nat)

  function FindTransfer(transfers: seq<Transfer>, key: string): (r: Option<nat>)
    ensures r.Some? ==> r.value < |transfers| && transfers[r.value].key == key
    ensures r.None? <==> forall i :: 0 <= i < |transfers| ==> transfers[i].key != key
  {
    if transfers == [] then None
    else if transfers[0].key == key then Some(0)
    else match FindTransfer(transfers[1..], key)
      case None => None
      case Some(i) => Some(i + 1)
  }

  predicate ReferenceExists(transfers: seq<Transfer>, reference: string) {
    exists i :: 0 <= i < |transfers| && transfers[i].reference == reference
  }

  /** An existing active account in the same currency, or a verified beneficiary of the actor's, or neither. */
  predicate PartyFits(bank: Bank, actor: Actor, q: TransferRequest)
    requires q.source < |bank.accounts|
  {
    var currency := bank.accounts[q.source].currency;
    match q.destination
    case Some(d) =>
      d < |bank.accounts| && bank.accounts[d].status == CustomerStatus.ACTIVE && bank.accounts[d].currency == currency
    case None =>
      q.beneficiary.Some? ==>
        && q.beneficiary.value < |bank.beneficiaries|
        && bank.beneficiaries[q.beneficiary.value] == Beneficiary(actor.id, true, currency)
  }

  function PartyProblem(bank: Bank, actor: Actor, q: TransferRequest): Option<BankError>
    requires q.source < |bank.accounts|
    ensures PartyProblem(bank, actor, q).None? <==> PartyFits(bank, actor, q)
  {
    var source := bank.accounts[q.source];
    if q.destination.Some? then
      if q.destination.value >= |bank.accounts| then Some(NotFound)
      else
        var destination := bank.accounts[q.destination.value];
        if destination.status != CustomerStatus.ACTIVE then Some(NotActive)
        else if destination.currency != source.currency then Some(CurrencyMismatch)
        else None
    else if q.beneficiary.Some? then
      if q.beneficiary.value >= |bank.beneficiaries| then Some(NotFound)
      else
        var beneficiary := bank.beneficiaries[q.beneficiary.value];
        if beneficiary.owner != actor.id then Some(NotFound)
        else if !beneficiary.verified then Some(BeneficiaryUnverified)
        else if beneficiary.currency != source.currency then Some(CurrencyMismatch)
        else None
    else None
  }

  /** The checks of `_execute_transfer_atomic`, in their order. */
  function TransferProblem(bank: Bank, actor: Actor, q: TransferRequest): (r: Option<BankError>)
    ensures r.None? <==>
              && q.amount > 0 && q.source < |bank.accounts|
              && var source := bank.accounts[q.source];
                 && (actor.isCustomer ==> source.owner == actor.id)
                 && source.status == CustomerStatus.ACTIVE && source.currency == "USD" && PartyFits(bank, actor, q)
                 && q.amount <= source.txLimit && q.amount <= Available(bank, q.source)
                 && OutflowToday(bank.transfers, q.source, q.now) + q.amount <= source.dailyLimit
                 && !ReferenceExists(bank.transfers, q.reference)
  {
    if q.amount <= 0 then Some(InvalidAmount)
    else if q.source >= |bank.accounts| then Some(NotFound)
    else
      var source := bank.accounts[q.source];
      if actor.isCustomer && source.owner != actor.id then Some(Forbidden)
      else if source.status != CustomerStatus.ACTIVE then Some(NotActive)
      else if source.currency != "USD" then Some(CurrencyMismatch)
      else if PartyProblem(bank, actor, q).Some? then PartyProblem(bank, actor, q)
      else if q.amount > source.txLimit then Some(TxLimitExceeded)
      else if OutflowToday(bank.transfers, q.source, q.now) + q.amount > source.dailyLimit then Some(DailyLimitExceeded)
      else if Available(bank, q.source) < q.amount then Some(InsufficientFunds)
      else if ReferenceExists(bank.transfers, q.reference) then Some(DuplicateReference)
      else None
  }

  function InitialStatus(q: TransferRequest): TransferStatus {
    if q.underReview then UNDER_REVIEW else if q.scheduledFor.Some? then PENDING else CREATED
  }

  function NewTransfer(q: TransferRequest): Transfer {
    Transfer(q.reference, q.key, q.source, q.destination, q.amount, InitialStatus(q), None, q.now, q.scheduledFor)
  }

  /** `_execute_transfer_atomic`: the new state, and the position of the transfer or the error. */
  function Executed(h: Hashing, bank: Bank, actor: Actor, q: TransferRequest): (Bank, Result<nat, BankError>)
    requires CodesKnown(bank)
  {
    var existing := FindTransfer(bank.transfers, q.key);
    if existing.Some? then (bank, Ok(existing.value))
    else if TransferProblem(bank, actor, q).Some? then (bank, Err(TransferProblem(bank, actor, q).value))
    else
      var i := |bank.transfers|;
      var created := bank.(transfers := bank.transfers + [NewTransfer(q)]);
      if InitialStatus(q) != CREATED then (created, Ok(i))
      else
        var settled := Settled(h, created, i, q.at);
        match settled.1
        case None => (settled.0, Ok(i))
        case Some(e) => (Aborted(bank, settled.0.book.nextId), Err(e))
  }

  /** `execute_transfer` when the risk gate blocks: the attempt is recorded as a FAILED row, unvalidated. */
  function GateBlocked(bank: Bank, q: TransferRequest): Bank {
    if FindTransfer(bank.transfers, q.key).Some? || ReferenceExists(bank.transfers, q.reference)
       || !PartiesExist(bank, NewTransfer(q)) then bank
    else bank.(transfers := bank.transfers + [NewTransfer(q).(status := FAILED)])
  }

  // ----- scheduled transfers

  predicate IsDue(t: Transfer, now: nat) {
    t.status == PENDING && t.scheduledFor.Some? && t.scheduledFor.value <= now
  }

  function MarkFailed(bank: Bank, i: nat): Bank
    requires i < |bank.transfers|
  {
    bank.(transfers := bank.transfers[i := bank.transfers[i].(status := FAILED)])
  }

  predicate AllPartiesExist(bank: Bank) {
    forall i :: 0 <= i < |bank.transfers| ==> PartiesExist(bank, bank.transfers[i])
  }

  /** One turn of `process_due_scheduled`, for a transfer that is due. */
  function ProcessedOne(h: Hashing, bank: Bank, i: nat, at: string): (Bank, Option<BankError>)
    requires i < |bank.transfers| && CodesKnown(bank) && AllPartiesExist(bank)
  {
    var t := bank.transfers[i];
    if bank.accounts[t.source].status != CustomerStatus.ACTIVE || Available(bank, t.source) < t.amount then (MarkFailed(bank, i), None)
    else Settled(h, bank, i, at)
  }

  lemma SettledKeepsShape(h: Hashing, bank: Bank, i: nat, at: string)
    requires i < |bank.transfers| && CodesKnown(bank) && AllPartiesExist(bank)
    ensures var v := Settled(h, bank, i, at).0;
            && CodesKnown(v) && AllPartiesExist(v) && |v.transfers| == |bank.transfers|
            && v.accounts == bank.accounts
  {
  }

  /** The turns from position `i` on; an error anywhere undoes them all. */
  function ProcessedFrom(h: Hashing, bank: Bank, i: nat, now: nat, at: string): (Bank, Option<BankError>)
    requires CodesKnown(bank) && AllPartiesExist(bank)
    decreases |bank.transfers| - i
  {
    if i >= |bank.transfers| then (bank, None)
    else if !IsDue(bank.transfers[i], now) then ProcessedFrom(h, bank, i + 1, now, at)
    else
      var one := ProcessedOne(h, bank, i, at);
      SettledKeepsShape(h, bank, i, at);
      if one.1.Some? then one else ProcessedFrom(h, one.0, i + 1, now, at)
  }

  /** `process_due_scheduled` */
  function Processed(h: Hashing, bank: Bank, now: nat, at: string): (Bank, Option<BankError>)
    requires CodesKnown(bank) && AllPartiesExist(bank)
  {
    var r := ProcessedFrom(h, bank, 0, now, at);
    if r.1.Some? then (Aborted(bank, r.0.book.nextId), r.1) else r
  }

  // ----- review and reversal

  /** `approve_transfer` */
  function Approved(h: Hashing, bank: Bank, i: nat, at: string): (Bank, Option<BankError>)
    requires i < |bank.transfers| && CodesKnown(bank) && AllPartiesExist(bank)
  {
    var t := bank.transfers[i];
    if t.status != UNDER_REVIEW then (bank, Some(NotPendingApproval))
    else
      var processing := bank.(transfers := bank.transfers[i := t.(status := PROCESSING)]);
      if Available(processing, t.source) < t.amount then (MarkFailed(processing, i), None)
      else
        var settled := Settled(h, processing, i, at);
        if settled.1.Some? then (Aborted(bank, settled.0.book.nextId), settled.1) else settled
  }

  function JournalWithId(journals: seq<Journal>, id: nat): (r: Option<Journal>)
    ensures r.Some? ==> r.value in journals && r.value.id == id
    ensures r.None? ==> forall j :: j in journals ==> j.id != id
  {
    if journals == [] then None
    else if journals[0].id == id then Some(journals[0])
    else JournalWithId(journals[1..], id)
  }

  /** `reverse_transfer`; the journal is the one the transfer points to. */
  function TransferReversed(h: Hashing, bank: Bank, i: nat, at: string): (Bank, Option<BankError>)
    requires i < |bank.transfers|
    requires forall j :: j in bank.book.journals ==> LinesKnown(bank.book.accounts, j.lines)
  {
    var t := bank.transfers[i];
    if t.status != COMPLETED || t.journal.None? then (bank, Some(NotReversible))
    else
      match JournalWithId(bank.book.journals, t.journal.value)
      case None => (bank, Some(NotFound))
      case Some(original) =>
        MirrorKnown(bank.book.accounts, original.lines);
        var p := ReversalPosting(original, "REV-" + t.reference, "", at);
        var book := ReversedBook(h, bank.book, original, p);
        match ReverseProblem(bank.book, original, p)
        case None => (bank.(book := book, transfers := bank.transfers[i := t.(status := REVERSED)]), None)
        case Some(e) => (bank.(book := book), Some(ReversalRefused(e)))
  }

  // ----- funding and bills

  function FindRecord(records: seq<Record>, key: string): (r: Option<nat>)
    ensures r.Some? ==> r.value < |records| && records[r.value].key == key
    ensures r.None? <==> forall i :: 0 <= i < |records| ==> records[i].key != key
  {
    if records == [] then None
    else if records[0].key == key then Some(0)
    else match FindRecord(records[1..], key)
      case None => None
      case Some(i) => Some(i + 1)
  }

  datatype FundingRequest = FundingRequest(account: nat, amount: int, key: string, reference: string, at: string)

  function FundingLines(account: Account, amount: int): seq<Line> {
    [Line(FUNDING, DEBIT, amount), Line(account.code, CREDIT, amount)]
  }

  /** `fund_account`; a known key replays the original. */
  function Funded(h: Hashing, bank: Bank, q: FundingRequest): (Bank, Option<BankError>)
    requires CodesKnown(bank)
  {
    if q.key != "" && FindRecord(bank.records, q.key).Some? then (bank, None)
    else if q.amount <= 0 then (bank, Some(InvalidAmount))
    else if q.account >= |bank.accounts| then (bank, Some(NotFound))
    else if bank.accounts[q.account].status != CustomerStatus.ACTIVE then (bank, Some(NotActive))
    else
      var account := bank.accounts[q.account];
      var book := EnsureAccount(bank.book, FUNDING, account.currency);
      var posted := PostLines(h, bank, book,
                              Posting(q.reference, q.reference, FundingLines(account, q.amount), q.at, account.currency));
      var key := if q.key != "" then q.key else q.reference;
      if posted.1.Some? then posted
      else if FindRecord(bank.records, key).Some? then (Aborted(bank, posted.0.book.nextId), Some(DuplicateKey))
      else (posted.0.(records := bank.records + [Record(key, bank.book.nextId, q.amount)]), None)
  }

  datatype BillRequest = BillRequest(account: nat, bill: nat, key: string, reference: string, at: string)

  predicate BillPaid(payments: seq<Payment>, bill: nat) {
    exists i :: 0 <= i < |payments| && payments[i].bill == bill
  }

  predicate PaymentKeyUsed(payments: seq<Payment>, key: string) {
    exists i :: 0 <= i < |payments| && payments[i].key == key
  }

  function BillLines(account: Account, amount: int): seq<Line> {
    [Line(account.code, DEBIT, amount), Line(PAYMENT_INCOME, CREDIT, amount)]
  }

  /** `pay_bill` past the risk gate: a known key replays, otherwise `_pay_bill_atomic`. */
  function BillSettled(h: Hashing, bank: Bank, actor: Actor, q: BillRequest): (Bank, Option<BankError>)
    requires CodesKnown(bank)
  {
    if PaymentKeyUsed(bank.payments, q.key) then (bank, None)
    else if q.account >= |bank.accounts| || q.bill >= |bank.bills| then (bank, Some(NotFound))
    else
      var account, amount := bank.accounts[q.account], bank.bills[q.bill];
      if actor.isCustomer && account.owner != actor.id then (bank, Some(Forbidden))
      else if account.status != CustomerStatus.ACTIVE then (bank, Some(NotActive))
      else if Available(bank, q.account) < amount then (bank, Some(InsufficientFunds))
      else if BillPaid(bank.payments, q.bill) then (bank, Some(BillAlreadyPaid))
      else
        var book := EnsureAccount(bank.book, PAYMENT_INCOME, "USD");
        var posted := PostLines(h, bank, book, Posting(q.reference, q.reference, BillLines(account, amount), q.at, ""));
        if posted.1.Some? then posted
        else (posted.0.(payments := bank.payments + [Payment(q.bill, q.account, amount, q.key, bank.book.nextId)]), None)
  }
}
