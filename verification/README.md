# Bankio: ledger, money movement and step-up challenges, verified

A Dafny model of the parts of Bankio, a Django bank on a double-entry ledger, where state, arithmetic or
protocol is worth proving, with the proofs. `dafny verify dfyconfig.toml` checks all of it.

**The tamper-evident ledger** (`Json`, `Canonical`, `Merkle`, `MerkleSecurity`, `Ledger`, `HashChain`,
`JournalGuard`, `ProofBatches`, `LedgerRuns`, `BatchChain`, `Anchors`, `ProofVerification`, `ProofTheorems`,
`VerdictOutcomes`, `AnchorOutcomes`, `LedgerOutcomes`, `BadSignatures`, `Accounting`). Journals are posted and reversed and extend a hash chain; seals commit contiguous id ranges to
Merkle roots and chain signed manifests; anchors publish them; two commands and `verify_journal` check it all
again. The main results: Merkle proofs are accepted exactly when they are paths of a leaf; accepted chains with
one tip record one history; every reachable ledger passes both commands and gets the right verdict, and
conversely a VERIFIED journal of an arbitrary database was honestly posted.

**Money movement** (`Banking`, `BankRuns`, `BankTheorems`, `Movements`, `BankOutcomes`, `Solvency`, `DailyLimits`, `TransferLifecycle`,
`BankFrame`, `TransferService`, and for concrete runs `OneAccount`, `Walks`, `ApprovalInstance`, `OverdraftInstance`,
`DailyLimitInstance`; `Calendar`, `Cards`, `CardRuns`, `CardStatements`, `CardClosing`, `CardMoney`, `CardOutcomes`,
`CardService`; `Annuity`, `Loans`,
`LoanRuns`, `LoanTheorems`, `LoanOutcomes`, `LoanInstance`, `LoanService`; `Refusals`). Transfers, funding and bills; card purchases, billing cycles and statement
payments; loans. The main results hold over arbitrary runs: lifecycle and exactly-once, solvency exactly
as far as reversals find their money, conservation of deposits and of the loan book, credit exposure within its
limit, statements that keep explaining their amounts, and the error of the rounded annuity.

**Step-up challenges** (`Challenges`, `ChallengeFacts`, `ChallengeTheorems`, `ChallengeOutcomes`, `ChallengeAttempts`, `ChallengeGuard`).
Requests
interleave in atomic database steps and act on stale reads; the results hold for every interleaving.

How it is built:

- The functions of a module say what each service does to the tables, all or nothing. Where the source updates
  rows step by step there is a class whose methods do the same and are proved against these functions; the
  invariants and theorems are then proved about the functions and about runs of them. The `Outcomes` modules say
  of each service exactly when it passes, what it then moves and writes, and that a refused call moves nothing.
- SHA-256 is an unknown function into 64-character digests and the signer an unknown pair that accepts its own
  signatures. Negative results are stated as "or two of the strings that were hashed collide", over a finite,
  explicit set of strings, and "unless the signature was forged".
- Amounts are whole cents (integers); only the annuity uses reals, and rounds to cents.
- References, times, generated codes, the credit score and the verdict of the risk gate are parameters of the
  calls. `transaction.atomic` makes a call one step; an aborted call leaves nothing but used-up ids, as
  PostgreSQL sequences do.
- Null hash fields are modelled as empty text, and posting times as the text that was hashed.

What the proofs found in the code:

- `approve_transfer` can never complete a transfer (apps/transfers/services.py:391, apps/transfers/services.py:365):
  with sufficient funds it asks for a second transition to PROCESSING, which the table lacks, and rolls back.
- `reverse_transfer` debits the receiver without looking at its funds (apps/transfers/services.py:372-382), and can
  leave it below zero. It is the only call of those modelled in a bank run that can: accounts stay solvent if and
  only if every reversal between two customers finds its amount still there.
- The daily limit is checked when a transfer is made, and not again when a scheduled one is settled
  (apps/transfers/services.py:290-292, apps/transfers/services.py:408-428): with n scheduled transfers
  the outflow of a day stays within n + 1 times the limit, and a run with two of them comes to three times.
- `verify_journal` reports PENDING for an unanchored batch even when its signature does not verify; a bad signature
  is reported exactly when the anchor of the batch is confirmed.
- `verify_batch_chain` does not recompute manifest hashes: the newest one is never compared with anything, and
  batches dropped from the end are not noticed.
- The save guard and the trigger of posted journals do not cover the stored hashes.
- The limit of five wrong codes is exact for one request at a time; k concurrent requests may record k + 3
  failures on a challenge that stays pending, and try 2k + 3 codes on it in all. The docstring of `challenge_guard` states the limit without this.
- The facts of a challenge are joined by a bar that values may contain, so some different facts share a digest: with
  the same keys exactly those whose text repeats the introduction of a fact, and with fewer keys all lists of two facts or more.
- A loan repayment key given by a caller may coincide with the default key of another installment, whose
  keyless repayment then reports success without paying.
- Closing a card cycle with a reference date in the next month bills the month that is running, and purchases made
  in it after that are never billed. Every other reference date is safe.
- A journal's description is not hashed.
- A purchase that a card check declines leaves no row: the decline row is written inside the transaction that the
  decline rolls back (apps/cards/services.py:223-225).

## Model

| member | source | states |
|---|---|---|
| `Json.DumpsInjective` | apps/ledger/canonical.py:52-54 | The compact JSON text of a value determines the value: two values with one text are equal, escapes, surrogate pairs and nesting included |
| `Json.DigitsInjective` | apps/ledger/canonical.py:28-49 | Decimal texts of ids are different for different numbers |
| `Canonical.AmountTextInjective` | apps/ledger/canonical.py:28-49 | An amount is printed with two decimals and can be read back, sign included |
| `Canonical.SortOrdered` | apps/ledger/canonical.py:28-49 | The entries of a payload are put in order by account, side and amount text |
| `Canonical.OrderedUnique` | apps/ledger/canonical.py:28-49 | There is one ordered listing of a multiset of entries, so the order in which they were stored does not show |
| `Canonical.CanonicalTextDeterminesContent` | apps/ledger/canonical.py:28-54 | Two journals have the same canonical text exactly when id, reference, posting time, currency and multiset of entries agree (the description is not part of it) |
| `Canonical.ChainPreimageInjective` | apps/ledger/canonical.py:57-64 | The text hashed for the chain splits uniquely into its two digests |
| `Merkle.BuildLevels` | apps/ledger/merkle.py:26-39 | The loop yields the levels of the tree, leaf hashes first, each odd level padded with its last element; an empty list is an error |
| `Merkle.RootIsLastLevel` | apps/ledger/merkle.py:42-43 | The root is the only element of the last level |
| `Merkle.GenerateProof` | apps/ledger/merkle.py:46-60 | The result is the sibling path of the index, and the ghost result says exactly whether the clamp fired |
| `Merkle.PositionNeverClamps` | apps/ledger/merkle.py:51-58 | For an index of the list the clamp on the sibling position never fires, at any level |
| `Merkle.VerifyProof` | apps/ledger/merkle.py:63-70 | The loop accepts exactly when combining the leaf hash with the steps ends in the root |
| `Merkle.PathClimbsToRoot` | apps/ledger/merkle.py:46-70 | Every sequence of steps that meets each level at a child of the next position climbs to the root |
| `Merkle.GeneratedProofVerifies` | apps/ledger/merkle.py:46-70 | Completeness: the proof generated for any leaf of any list is accepted |
| `MerkleSecurity.MerkleRootIsTreeHash` | apps/ledger/merkle.py:26-43 | The level-by-level computation is the hash of one binary tree, an independent definition |
| `MerkleSecurity.DomainsDisjoint` | apps/ledger/merkle.py:18-23 | No leaf preimage is a node preimage |
| `MerkleSecurity.NodePreimageInjective` | apps/ledger/merkle.py:18-23 | A node preimage names its two children |
| `MerkleSecurity.TreeHashInjective` | apps/ledger/merkle.py:18-43 | Trees of any shapes with equal hashes are equal, or two strings hashed for them collide |
| `MerkleSecurity.RootBindsLeaves` | apps/ledger/merkle.py:26-43 | Lists of any lengths with equal roots: one is a prefix of the other, and they are equal if equally long, or there is a collision |
| `MerkleSecurity.RepeatedLastLeafSameRoot` | apps/ledger/merkle.py:30-38 | Why the length matters: repeating the last leaf of an odd list keeps the root |
| `MerkleSecurity.AcceptedProofOpens` | apps/ledger/merkle.py:63-70 | Whatever proof climbs to the hash of a tree is an authentication path inside that tree, or there is a collision |
| `MerkleSecurity.AcceptedIffPath` | apps/ledger/merkle.py:18-70 | Soundness and completeness: any payload with any proof of any length is accepted against the root of a list exactly when the proof is an authentication path of a position that holds the payload (unless there is a collision) |
| `MerkleSecurity.AcceptedProofIsGenerated` | apps/ledger/merkle.py:46-70 | An accepted proof carries, hash by hash, what the generator emits for a leaf equal to the payload |
| `Ledger.AddEntries` | apps/ledger/services.py:70-83 | The posting loop stops at the first bad entry and otherwise returns the two sums |
| `Ledger.LedgerService.GetOrCreateAccount` | apps/ledger/services.py:27-31 | An existing account is left as it is |
| `Ledger.LedgerService.PostJournal` | apps/ledger/services.py:50-106 | Every check in order; on success one chained POSTED journal is appended, on failure nothing but possibly an id is used up |
| `Ledger.LedgerService.ReverseJournal` | apps/ledger/services.py:110-129 | Only a posted journal without a reversal is mirrored, posted and linked; otherwise the error says why |
| `LedgerRuns.PostKeepsBook` | apps/ledger/services.py:50-106 | Posting keeps the ledger sound: balanced positive journals with increasing ids, unique references and a linked chain |
| `LedgerRuns.ReverseKeepsBook` | apps/ledger/services.py:110-129 | So does reversing: the link set after posting disturbs no stored hash, and a journal is reversed at most once |
| `LedgerRuns.ReachableLedgerOk` | apps/ledger/services.py:50-129 | The whole invariant of journals and batches holds after every run of account changes, postings (failed ones burn ids), reversals and seals |
| `LedgerRuns.ReachableChainVerifies` | apps/ledger/management/commands/verify_ledger_hash_chain.py:10-40 | The journal-chain command finds no failure after any run |
| `LedgerOutcomes.PostingPassesIff` | apps/ledger/services.py:52-80 | A posting passes exactly if it has lines, all positive and on active accounts of one currency (the declared one, if any), balances, and has a new reference |
| `LedgerOutcomes.PostingOutcome` | apps/ledger/services.py:52-106 | An accepted posting adds one journal that says what the caller said, under the next id and after the last chain hash; a refused one adds none and uses up at most one id |
| `LedgerOutcomes.ReversalOutcome` | apps/ledger/services.py:109-129 | A journal is reversed exactly if it has not been, all its accounts are still active and the reference is new; the table then has one more journal, every line turned round, that names it |
| `Refusals.PostingReasonHolds` | apps/ledger/services.py:52-80 | The reason given for a refused posting is true |
| `Refusals.ReverseReasonHolds` | apps/ledger/services.py:112-115 | Exactly drafts and reversed journals are refused as such, and nothing changes |
| `HashChain.VerifyHashChain` | apps/ledger/management/commands/verify_ledger_hash_chain.py:10-40 | Zero failures exactly when every posted row links; otherwise it stops at the first row that does not |
| `HashChain.SameTipSameHistory` | apps/ledger/management/commands/verify_ledger_hash_chain.py:11-34 | Two accepted tables with one last chain hash record the same history row by row, or two hashed strings collide; tables of different lengths are ruled out as well, or some hashed string has the genesis value as its digest |
| `HashChain.TamperedRowIsLocated` | apps/ledger/management/commands/verify_ledger_hash_chain.py:14-34 | Changing the content of one row behind its stored hashes makes the command stop at exactly that row |
| `JournalGuard.JournalTable.Save` | apps/ledger/models.py:73-84 | An update of a posted row passes exactly when it sets the reversal link, changes no other guarded field, and the trigger has nothing against it |
| `JournalGuard.JournalTable.Delete` | apps/ledger/models.py:86-87 | Deleting is always refused |
| `JournalGuard.PostedContentForever` | apps/ledger/models.py:71-87 | Over any updates that pass, a posted row keeps its status, its entries and everything that is hashed |
| `JournalGuard.ChainSurvivesIff` | apps/ledger/models.py:71-84 | The guards do not cover the three stored hashes: an accepted update keeps a valid chain valid if and only if it leaves all three alone |
| `JournalGuard.LinkCanCarryAnotherHash` | apps/ledger/models.py:71-84 | The failing updates: on any posted row of any valid chain, setting the link together with another chain hash is accepted and breaks the chain |
| `JournalGuard.SingleRowInstance` | apps/ledger/models.py:71-84 | One of them spelled out, on a table of one journal |
| `ProofBatches.ManifestBytesNameManifest` | apps/ledger/proof_batches.py:48-62 | The signed manifest text determines every field of the manifest |
| `ProofBatches.SelectRun` | apps/ledger/proof_batches.py:27-46 | The selection loop returns the longest run of consecutive ids at the front |
| `ProofBatches.SelectionStops` | apps/ledger/proof_batches.py:27-46 | A batch takes the unsealed journals in order until there are no more, the ids have a gap, or there are 10000 |
| `ProofBatches.BatchService.SealBatch` | apps/ledger/proof_batches.py:20-83 | One batch over the next run of unsealed journals, chained and signed; None and no change if there is none |
| `ProofBatches.GenerateMerkleProof` | apps/ledger/proof_batches.py:93-111 | The proof of a journal is the path at its id minus the first id of its batch, or an error if no batch holds it; and whether the clamp fired |
| `ProofTheorems.CoveredProofVerifies` | apps/ledger/proof_batches.py:93-111 | In a sound state that proof exists for every sealed journal, needs no clamp and verifies against the sealed root |
| `LedgerRuns.BatchRangesIncrease` | apps/ledger/proof_batches.py:27-77 | After every run batch ranges are disjoint and strictly increasing, entry counts are their widths, and every id in a range is a posted journal, although failed postings leave gaps |
| `LedgerRuns.SealedJournalInOneBatch` | apps/ledger/proof_batches.py:27-77 | Every posted journal up to the last sealed id is in exactly one batch |
| `LedgerRuns.NothingLeftIffCovered` | apps/ledger/proof_batches.py:27-46 | Sealing returns None exactly when every posted journal is in a batch |
| `LedgerRuns.SealingCoversAll` | apps/ledger/proof_batches.py:20-83 | Sealing again and again terminates with everything covered |
| `BatchChain.VerifyBatchChain` | apps/ledger/management/commands/verify_batch_chain.py:11-46 | Zero failures exactly when sequence, previous hash and signature fit for every active batch; otherwise the first that does not is reported |
| `BatchChain.ReachableBatchesVerify` | apps/ledger/management/commands/verify_batch_chain.py:16-39 | The batch-chain command finds no failure after any run |
| `BatchChain.AcceptedBatchesArePrefix` | apps/ledger/management/commands/verify_batch_chain.py:16-39 | Unless a signature is forged, the command accepts an arbitrary table if and only if it is a prefix of the honest batches in all signed fields and all manifest hashes but the last |
| `BatchChain.TipHashIsNotChecked` | apps/ledger/management/commands/verify_batch_chain.py:16-39 | The newest stored manifest hash may be anything: the command never recomputes it |
| `Anchors.AnchorService.SubmitToProvider` | apps/ledger/anchor_service.py:26-46 | The provider fails once when told to, answers a known key with its first reference, and otherwise stores the commitment |
| `Anchors.AnchorService.AnchorBatch` | apps/ledger/anchor_service.py:81-123 | A live anchor of the key is returned; a failed one is superseded by a new row that records what the provider said |
| `Anchors.AnchorService.ConfirmAnchor` | apps/ledger/anchor_service.py:126-146 | A poll confirms only a known submission with the right commitment, and then marks the batch |
| `Anchors.KeyDeterminesSequence` | apps/ledger/anchors.py:36-38 | Different batches never share an idempotency key |
| `Anchors.LiveIsUnique` | apps/ledger/anchor_service.py:81-123 | A key has at most one row that is not SUPERSEDED |
| `Anchors.ReanchorReturnsExisting` | apps/ledger/anchor_service.py:81-91 | Anchoring a batch whose anchor is live and did not fail changes nothing and returns that anchor |
| `Anchors.AnchorKeepsOk` | apps/ledger/anchor_service.py:81-123 | Anchoring keeps: one live row per key, rows that carry their batch's commitment, and ANCHORED exactly for batches with a confirmed row |
| `Anchors.ConfirmKeepsOk` | apps/ledger/anchor_service.py:126-146 | So does polling |
| `AnchorOutcomes.SubmissionOutcome` | apps/ledger/anchor_service.py:81-123 | A batch without a live anchor, or with a failed one, gets a new row: submitted with its commitment filed, or failed if the provider fails, and the failed one before it is superseded and no other row touched |
| `AnchorOutcomes.ResubmissionOutcome` | apps/ledger/anchor_service.py:26-46 | A provider that knows the key files nothing and answers with a reference it has filed for that key |
| `AnchorOutcomes.FirstPollWaits` | apps/ledger/anchor_service.py:126-146 | The first poll of a filed commitment leaves the anchor SUBMITTED and the batch as it was |
| `AnchorOutcomes.SecondPollConfirms` | apps/ledger/anchor_service.py:126-146 | The second makes it CONFIRMED at that time and its batch, no other, ANCHORED |
| `AnchorOutcomes.ForeignCommitmentFails` | apps/ledger/anchor_service.py:126-146 | If the provider holds another commitment, the poll that would confirm makes the anchor FAILED |
| `AnchorOutcomes.NothingToPoll` | apps/ledger/anchor_service.py:126-146 | An anchor that is not waiting, or whose reference the provider does not know, stays as it is |
| `AnchorOutcomes.VerifiedInTheEnd` | apps/ledger/anchor_service.py:81-146 | A run from the empty system: post, seal, anchor, two polls, and the journal is VERIFIED |
| `ProofVerification.ReachableSystemOk` | apps/ledger/anchor_service.py:81-146 | All of it holds after every run of ledger steps, submissions, provider failures, restarts, retries and polls |
| `ProofVerification.VerifyInclusion` | apps/ledger/proof_verification.py:18-58 | The recorded checks all pass exactly when the journal is consistent and in its batch |
| `ProofVerification.VerifyAnchor` | apps/ledger/proof_verification.py:64-87 | PENDING without a confirmed anchor; otherwise the verdict needs every earlier check and the commitment |
| `ProofVerification.VerifyJournal` | apps/ledger/proof_verification.py:18-87 | VERIFIED exactly when every recorded check passed |
| `ProofTheorems.HonestVerdict` | apps/ledger/proof_verification.py:18-87 | Completeness: after any run every posted journal is reported FAILED before it is sealed, PENDING until its batch is anchored and VERIFIED from then on |
| `ProofTheorems.VerifiedIsGenuine` | apps/ledger/proof_verification.py:18-87 | Soundness against any database whatever: a VERIFIED journal was honestly posted with that content, unless a signature was forged or two hashed strings collide |
| `VerdictOutcomes.VerdictIff` | apps/ledger/proof_verification.py:18-87 | The verdict in terms of the rows looked up: not FAILED only if posted, payload hash and chain hash recomputed and the proof opens the root; PENDING exactly without a confirmed live anchor; VERIFIED exactly if besides the signature and the commitment hold |
| `VerdictOutcomes.VerifiedAttests` | apps/ledger/proof_verification.py:18-87 | VERIFIED implies all of that of a journal, a batch and an anchor that are in the database |
| `VerdictOutcomes.AlteredRowFails` | apps/ledger/proof_verification.py:27-46 | In every reachable system, a row put in the place of a journal under its reference gets FAILED if its hashes are not those of its content |
| `VerdictOutcomes.OtherChainHashFails` | apps/ledger/proof_verification.py:43-46 | So does a journal, anchored or not, whose chain hash alone is replaced |
| `ProofTheorems.PendingIgnoresSignature` | apps/ledger/proof_verification.py:60-81 | Whether the verdict is PENDING does not depend on the signer |
| `BadSignatures.BadSignatureVerdict` | apps/ledger/proof_verification.py:60-87 | For a journal included in a batch whose signature does not verify, the verdict is FAILED if and only if the live anchor of the batch is confirmed; otherwise it is PENDING |
| `BadSignatures.ReplacedSignatureVerdict` | apps/ledger/proof_verification.py:60-87 | In every reachable system, replacing the stored signature of a batch by one that does not verify gives each of its journals FAILED if the batch is anchored and PENDING if it is not |
| `BadSignatures.BadSignatureGoesUnreported` | apps/ledger/proof_verification.py:60-87 | The input: after one posting and one seal, any signature that does not verify may stand in the batch, and the verdict is PENDING |
| `Accounting.TrialBalance` | apps/ledger/services.py:34-106 | After every run assets and expenses equal liabilities, income and equity, per currency |
| `Accounting.BalanceBySides` | apps/ledger/services.py:34-48 | A balance is posted debits less credits for assets and expenses, the other way round for all other kinds |
| `Accounting.ReversalIsNeutral` | apps/ledger/services.py:109-129 | A reversal and its original together change no balance, whatever was posted between them, and nothing else reverses that original |
| `Accounting.BalanceCheck` | apps/ledger/models.py:61-69 | The loop returns the sums of the two sides |
| `Accounting.CheckJournals` | apps/ledger/reconciliation.py:42-49 | The references of exactly the posted journals that do not balance |
| `Accounting.DraftsAreTheRest` | apps/ledger/reconciliation.py:84-92 | The draft lines counted and the lines of the posted journals make up all lines |
| `Accounting.CheckAccounts` | apps/ledger/reconciliation.py:64-82 | It lists exactly the accounts with a negative blocked amount: the projection and the raw query never differ |
| `Accounting.RawBalance` | apps/ledger/reconciliation.py:20-29 | The raw query equals the balance service for every kind of account |
| `Accounting.Reconcile` | apps/ledger/reconciliation.py:32-109 | FAILED exactly when a posted journal does not balance or a blocked amount is negative; WARNING exactly when only drafts are left; RECONCILED otherwise; and each difference is reported exactly when it exists, with its exact content |
| `Accounting.ReachableReconciles` | apps/ledger/reconciliation.py:32-109 | After any run no journal is unbalanced and none is in draft, so the report is RECONCILED |
| `TransferServices.TransferService.ChangeStatus` | apps/transfers/models.py:19-57 | A status changes only along the table and is otherwise left alone |
| `TransferServices.TransferService.Settle` | apps/transfers/services.py:340-368 | Posts the journal of the transfer and completes it, or undoes everything |
| `TransferServices.TransferService.Execute` | apps/transfers/services.py:243-336 | A known key replays; otherwise all checks in order, then a waiting row or a settled one, or no change at all |
| `TransferServices.TransferService.ProcessDue` | apps/transfers/services.py:408-428 | Every due transfer is settled or failed in turn; a ledger error undoes the whole batch |
| `TransferServices.TransferService.Approve` | apps/transfers/services.py:386-404 | Fails the transfer or aborts |
| `TransferServices.TransferService.Reverse` | apps/transfers/services.py:372-382 | Reverses the journal of a completed transfer and marks it |
| `TransferServices.TransferService.Fund` | apps/accounts/services.py:35-83 | Credits an active account from the funding source and records the key, once per key |
| `TransferServices.TransferService.PayBill` | apps/payments/services.py:17-106 | Pays an unpaid bill from sufficient funds, once per key and once per bill |
| `Banking.TransferProblem` | apps/transfers/services.py:258-303 | A transfer passes exactly when the amount is positive and covered by the balance and both limits, the source is an active USD account of the actor, the other party is fit, and the reference is new |
| `BankOutcomes.FundingOutcome` | apps/accounts/services.py:35-83 | A deposit under a new key passes exactly for a positive amount, an active account and an acceptable posting; it credits that account in full and moves nothing else; a refused one moves nothing |
| `Movements.ChartAfter` | apps/ledger/services.py:26-31 | A posting of a service opens its settlement account as an active asset if it was missing, and changes no other account |
| `BankOutcomes.BillOutcome` | apps/payments/services.py:79-106 | A bill is paid under a new key exactly if a customer who asks owns the account, it is active and covers the amount, the bill is open and the ledger accepts; then exactly its amount leaves that account, which stays solvent |
| `BankOutcomes.ExecutionOutcome` | apps/transfers/services.py:243-336 | A new transfer is reviewed, else scheduled, else settled; settled, its amount has moved from source to payee and nothing else; it passes exactly if all checks do and, when settled, the ledger accepts |
| `BankOutcomes.ScheduledRunOutcome` | apps/transfers/services.py:408-428 | The scheduled run ends in the statuses and balances that a plan on account statuses, rows and balances alone predicts: due rows in turn, settled exactly if their account is active and still has the amount; or a refused posting undoes it all |
| `Refusals.TransferReasonHolds` | apps/transfers/services.py:258-303 | The reason given for a refused transfer is true |
| `Refusals.BillReasonHolds` | apps/payments/services.py:79-94 | The reason given for a refused bill payment is true |
| `Refusals.ReversalReasonHolds` | apps/transfers/services.py:372-375 | A transfer that is not completed is not reversible, and nothing changes |
| `BankRuns.ExecutedKeepsOk` | apps/transfers/services.py:243-336 | Keeps the transfer invariant: a journal exactly for COMPLETED and REVERSED rows, recording that amount between those parties, REVERSED exactly if reversed, no shared keys, references or journals |
| `BankRuns.ProcessedKeepsOk` | apps/transfers/services.py:408-428 | The scheduled run keeps it |
| `BankRuns.TransferReversedKeepsOk` | apps/transfers/services.py:372-382 | Reversal keeps it |
| `BankRuns.ApprovalNeverCompletes` | apps/transfers/services.py:386-404 | A reviewed transfer with short funds is failed and with sufficient funds the approval always aborts, because settling asks for a second move to PROCESSING |
| `ApprovalInstance.FundedApprovalAborts` | apps/transfers/services.py:386-404 | The state itself, from an empty bank: 100 deposited, a transfer of 50 under review, and an approval that aborts and leaves it there |
| `BankTheorems.BankRun` | apps/transfers/services.py:256-428 | Over any run from a sound state: the lifecycle invariant holds, customer deposits stay explained by funding minus completed external transfers minus bills, the clearing account by the external transfers that are completed and not reversed, and immediate transfers stay within the daily limit |
| `Solvency.SolventIffCovered` | apps/transfers/services.py:243-428 | From solvent accounts, every state along a run is solvent if and only if each reversal that passes in it finds its amount still with the receiver (or gives back an external transfer, or one between an account and itself) |
| `Solvency.ReversalSolventIff` | apps/transfers/services.py:372-382 | The same for one reversal |
| `Solvency.ReversalMoves` | apps/transfers/services.py:372-382 | A reversal returns exactly the amount to the sender and takes it from the receiver, whatever the receiver has |
| `Solvency.ReversalPassesIff` | apps/transfers/services.py:372-382 | A reversal passes exactly for a completed transfer whose two ledger accounts are active and whose REV- reference is unused |
| `Solvency.NoOverdraft` | apps/transfers/services.py:287-368 | In particular no state of a run without reversals has an available balance below zero |
| `OverdraftInstance.ReversalOverdraws` | apps/transfers/services.py:372-382 | The failing run, from two empty accounts: 100 deposited, transferred, paid out by the receiver and then reversed leaves the receiver at -100 |
| `DailyLimits.OutflowHasTwoParts` | apps/transfers/services.py:38-49 | What leaves an account by transfers made on a day is the immediate part plus the scheduled transfers settled since |
| `DailyLimits.ServiceSumsTheDay` | apps/transfers/services.py:38-49 | The sum that the limit check takes is that outflow, provided that no transfer was made at the very first instant of the next day |
| `DailyLimits.DayOutflowBounded` | apps/transfers/services.py:287-428 | Over any run that outflow exceeds the daily limit by at most its scheduled part, and is at most the limit times one more than the number of scheduled transfers in it |
| `DailyLimitInstance.LimitExceeded` | apps/transfers/services.py:290-336 | A run that attains this bound, from an empty account with a limit of 1000: two scheduled transfers and an immediate one, made on one day, come to 3000 |
| `TransferLifecycle.RetryReturnsOriginal` | apps/transfers/services.py:256-259 | After a first success, a retry with the same key, by anyone, with any arguments and after any other calls, returns that transfer and changes nothing |
| `TransferLifecycle.KeyReturnsRow` | apps/transfers/services.py:256-259 | The same for every transfer that exists, whatever its status has become |
| `BankTheorems.KeyNamesRow` | apps/transfers/services.py:256-259 | A key names at most one transfer |
| `BankTheorems.DepositsIsSum` | apps/accounts/models.py:51-59 | The conserved quantity is the sum of the customers' balances |
| `BankTheorems.AvailableBySides` | apps/accounts/models.py:51-59 | What a customer can spend is posted credits less posted debits less the blocked amount |
| `BankTheorems.NoMoneyMovedYet` | apps/accounts/models.py:51-59 | A bank without movements is a sound state to start from |
| `TransferLifecycle.RunFollowsTable` | apps/transfers/models.py:19-57 | Over any run every row keeps its identity and its journal, and its status has moved along a path of the transition table |
| `TransferLifecycle.EndedRowsStay` | apps/transfers/models.py:19-57 | A FAILED or REVERSED row is the very same row after any run |
| `TransferLifecycle.NoWayBack` | apps/transfers/models.py:19-57 | Along any path of the table no earlier stage is entered again, a completed transfer can only be reversed, and a failed, canceled or reversed one stays so |
| `BankFrame.StepLeaves` | apps/transfers/services.py:287-428 | No call moves the balance of a ledger account that is not a party to it |
| `Calendar.CycleIsMonth` | apps/cards/billing.py:20-25 | A date is in the previous cycle exactly when it lies in the month before the reference date |
| `Calendar.CyclesTile` | apps/cards/billing.py:20-25 | Cycles of consecutive months follow one another without gap or overlap, leap years included |
| `Calendar.NextDayIsNext` | apps/cards/billing.py:20-25 | No date lies between a day and the next |
| `Calendar.AddDaysCounts` | apps/cards/billing.py:57 | n days later is n further on in the Gregorian day count, month lengths and leap years included |
| `Cards.PurchaseProblem` | apps/cards/services.py:227-259 | A purchase passes exactly when the card is active, not expired and enabled for it, and the amount fits both limits and the credit left (the funds, for a debit card) |
| `CardMoney.PurchaseMovesItsAmount` | apps/cards/services.py:261-271 | Exactly a new purchase row takes its amount from the account to the receivable, and nothing else moves |
| `CardMoney.PaymentMovesItsTotal` | apps/cards/services.py:336-354 | A payment moves exactly the total it reports, a refused one nothing |
| `CardOutcomes.PurchaseOutcome` | apps/cards/services.py:214-274 | A purchase under a new key passes exactly if the checks do and the ledger accepts; then it is one approved row of today and one movement, and a debit card is still within its account, any other within its limit |
| `CardOutcomes.PurchaseReplay` | apps/cards/services.py:219-221 | A used key changes nothing and names its purchase |
| `CardOutcomes.DailySpendWithinLimit` | apps/cards/services.py:240-246 | In every sound state a purchase leaves what the card has spent today within its daily limit |
| `CardOutcomes.CompositionIsQuery` | apps/cards/billing.py:38-45 | A statement is composed of exactly the approved, posted purchases dated within the cycle, in order |
| `CardOutcomes.CreditFiguresAgreeIff` | apps/cards/services.py:192-204 | The figures shown are never negative, and make up the limit if and only if the raw figure lies between zero and the limit |
| `CardOutcomes.PaymentOutcome` | apps/cards/services.py:325-361 | A payment under a new key passes exactly for the owner or staff, a positive total that the account covers and an acceptable posting; then exactly the statements due are paid, for their sum, and the account stays solvent |
| `CardOutcomes.PaymentReplay` | apps/cards/services.py:329-331 | A used key changes nothing and returns what it paid |
| `CardOutcomes.ClosingOutcome` | apps/cards/billing.py:28-60 | A closing bills a card exactly if it is a credit card, not replaced, with something to bill and no statement yet |
| `CardOutcomes.NewStatements` | apps/cards/billing.py:38-58 | Every new statement is unpaid, for the sum of the cycle, and due ten days after its end |
| `CardOutcomes.ControlOutcome` | apps/cards/services.py:43-79 | Controls pass exactly for the owner or staff, on a card that is not blocked, with limits of zero or more; they set what they name and nothing else |
| `CardOutcomes.DeclineOutcome` | apps/cards/services.py:182-189 | A decline of the risk gate is recorded, uses no credit and enters no statement |
| `Refusals.PurchaseReasonHolds` | apps/cards/services.py:227-259 | The reason given for a declined purchase is true |
| `CardServices.CardService.Buy` | apps/cards/services.py:214-274 | A known key replays; otherwise all checks, one posting and one approved row, or no row at all |
| `CardServices.CardService.BillableTotal` | apps/cards/billing.py:38-45 | The loop sums exactly the composition of the cycle |
| `CardServices.CardService.CloseCardStatements` | apps/cards/billing.py:28-60 | The loop over the cards adds one statement for each that is due and returns exactly those |
| `CardServices.CardService.MarkCovered` | apps/cards/services.py:353-354 | Exactly the covered statements become paid |
| `CardServices.CardService.PayStatement` | apps/cards/services.py:325-361 | Settles the unpaid statements of the card, or the one named, for their total |
| `CardServices.CardService.SetControl` | apps/cards/services.py:43-79 | Only status, limits and switches change, and never on a blocked card |
| `CardRuns.ApprovedExplained` | apps/cards/services.py:192-210 | Approved purchases are the paid statements, the unpaid ones, and the purchases that no statement covers |
| `CardRuns.ExposureExplained` | apps/cards/services.py:192-259 | In every sound state the raw figure of the purchase check is unpaid statements plus never-billed purchases, lies between zero and the credit limit, and agrees with the clamped one; used and available make up the limit |
| `CardRuns.PaymentReleasesCredit` | apps/cards/services.py:325-361 | A payment lowers used credit and open invoices by exactly what it charges |
| `CardRuns.CardRunOk` | apps/cards/services.py:214-361 | States stay sound over every run of purchases, declines, closings of every month but the running one, payments, control changes, new cards and whatever other services do |
| `CardRuns.NothingBoughtYet` | apps/cards/services.py:192-210 | Unused cards with limits of zero or more are a sound state to start from |
| `CardStatements.ClosingIsComplete` | apps/cards/billing.py:28-60 | After a closing a card has a statement of the cycle exactly when it had one, or it is closable and has something to bill |
| `CardStatements.ClosingIsIdempotent` | apps/cards/billing.py:28-60 | Closing again from any reference date of the same month changes nothing |
| `CardStatements.ClosedStatementsExplained` | apps/cards/billing.py:100-109 | Over any run every statement stays, and its composition recomputed from the purchases still sums to its amount |
| `CardStatements.EarlyClosingFallsShort` | apps/cards/billing.py:28-60 | Not so for a cycle closed while it contains today: every later purchase of the day leaves the statement short by its amount |
| `CardClosing.ClosedTooEarly` | apps/cards/billing.py:28-60 | The state itself, on every date: a purchase of 10, a closing from a date in the next month, a purchase of 5 that passes, and a statement of 10 whose composition sums to 15 |
| `CardClosing.SafeToCloseIff` | apps/cards/billing.py:28-60 | A closing leaves every statement explained, from every sound state and over every later run, if and only if its reference date is not in the month after today |
| `CardStatements.EarlyMeansNextMonth` | apps/cards/billing.py:20-33 | That happens exactly for reference dates in the following month |
| `Annuity.GeometricClosed` | apps/lending/services.py:20-24 | The growth of one unit in closed form |
| `Annuity.RoundsToNearest` | apps/lending/services.py:20-24 | Rounding moves an amount by at most half a cent |
| `Annuity.HalvesGoOutward` | apps/lending/services.py:20-24 | Half cents are rounded away from zero, on both sides |
| `Annuity.PaymentExists` | apps/lending/services.py:13-24 | For rates of zero or more there is a payment exactly if there is a month |
| `Annuity.SingleMonth` | apps/lending/services.py:13-24 | Over one month the payment is the amount and a twelfth of the interest of a year, rounded |
| `Annuity.UnroundedPaysOff` | apps/lending/services.py:18-24 | The unrounded payment brings the balance to exactly zero after the last month, at every rate for which it is defined |
| `Annuity.RoundedPaymentIsBest` | apps/lending/services.py:13-24 | The rounded payment leaves at most half a cent times the geometric sum, and no other number of cents leaves less |
| `Annuity.ResidualBound` | apps/lending/services.py:13-24 | The same bound as half a cent times ((1+r)^n - 1) / r |
| `Annuity.PaymentsReturnPrincipal` | apps/lending/services.py:13-30 | All payments together return at least the principal minus half a cent each |
| `Annuity.UnroundedCoversInterest` | apps/lending/services.py:20-24 | With a positive rate the payment exceeds the first interest |
| `Annuity.BalanceFalls` | apps/lending/services.py:20-24 | Hence what is owed falls month by month |
| `Calendar.AddMonthsCorrect` | apps/lending/services.py:155-158 | Exactly n months later, on the same day or the last of a shorter month; more months are strictly later |
| `Calendar.AddMonthsTwice` | apps/lending/services.py:155-158 | Adding in two steps agrees with adding at once if and only if the day survives the first step or the last month is no longer than the middle one |
| `Calendar.ShortMonthLosesTheDay` | apps/lending/services.py:155-158 | An instance where they differ: 31 January in two steps of a month |
| `LoanServices.LoanService.Disburse` | apps/lending/services.py:77-112 | Posts, activates and schedules once; any error undoes it all |
| `LoanServices.LoanService.Approve` | apps/lending/services.py:60-73 | Rejects a low score, otherwise disburses or changes nothing |
| `LoanServices.LoanService.RepayInstallment` | apps/lending/services.py:116-152 | A known key replays; otherwise an open installment is paid and the loan closed with its last one |
| `LoanServices.LoanService.ApplyForLoan` | apps/lending/services.py:44-56 | A loan in review for an amount in the range of the product, or an error |
| `LoanTheorems.LoanBookConserved` | apps/lending/services.py:60-152 | Over any run: portfolio balance = disbursed principal - paid installments, ACTIVE or PAID exactly if disbursed, PAID exactly if every installment is |
| `LoanTheorems.NoLoansYet` | apps/lending/services.py:60-152 | A sound bank with an empty portfolio account is a state to start from |
| `LoanTheorems.ScheduleIsComplete` | apps/lending/services.py:98-105 | A disbursed loan has every installment from 1 to its term |
| `LoanTheorems.DueDatesIncrease` | apps/lending/services.py:98-105 | Its installments have one amount and fall due strictly later and later, as many months apart as their numbers |
| `LoanTheorems.PaidOnce` | apps/lending/services.py:116-152 | A paid installment keeps its journal over any run |
| `LoanTheorems.SuccessMeansPaid` | apps/lending/services.py:116-130 | A call that succeeds on an open installment has paid it if and only if its key was new |
| `LoanOutcomes.ApplicationOutcome` | apps/lending/services.py:44-56 | An application goes to review exactly if its amount is in the range; it keeps what was applied for, with the score |
| `LoanOutcomes.ApprovalOutcome` | apps/lending/services.py:60-73 | Only a loan in review is decided: rejected without any movement below a score of 550, otherwise disbursed exactly if the disbursement passes |
| `LoanOutcomes.DisbursementOutcome` | apps/lending/services.py:77-112 | A disbursement passes exactly with an active account, a payment that exists and an acceptable posting; the borrower then has the principal and the loan one open installment a month |
| `LoanOutcomes.RepaymentOutcome` | apps/lending/services.py:116-152 | A repayment under a new key passes exactly if the installment is open, the account covers it and the ledger accepts; then exactly the installment has left the account, which stays solvent; a refused one moves nothing |
| `LoanOutcomes.UsedKeyOutcome` | apps/lending/services.py:119-127 | A used key changes nothing and names the installment it paid |
| `Refusals.RepaymentReasonHolds` | apps/lending/services.py:128-130 | The reason given for a refused repayment is true |
| `LoanTheorems.DigitsKeyBlocks` | apps/lending/services.py:119-127 | Once a caller's key that spells another installment's id has been used, the keyless repayment of that one succeeds without paying |
| `LoanInstance.SecondInstallmentBlocked` | apps/lending/services.py:60-152 | The state itself, from an empty bank: a loan disbursed over two months, whose first installment is repaid under the key 1 and whose second then cannot be repaid without a key |
| `BankFrame.BankingIsElsewhere` | apps/lending/services.py:60-152 | Every step of the money services is among those that a run of the lending services allows in between |
| `Challenges.VerifyProblem` | apps/fraud/challenge.py:48-65 | Verification succeeds exactly on a pending row, in time, with the issued material and the right code |
| `ChallengeGuards.ChallengeGuard.IssueChallenge` | apps/fraud/challenge.py:35-45 | One new pending row bound to the facts |
| `ChallengeGuards.ChallengeGuard.VerifyChallenge` | apps/fraud/challenge.py:48-65 | The outcome, and the row as it is written before any rollback |
| `ChallengeGuards.ChallengeGuard.ConsumeChallenge` | apps/fraud/challenge.py:68-74 | The row is consumed and its material replaced |
| `ChallengeGuards.ChallengeGuard.ConfirmAndConsume` | apps/fraud/challenge_guard.py:79-97 | The locked transaction: both writes or none |
| `ChallengeGuards.ChallengeGuard.FailedAttempts` | apps/fraud/challenge_guard.py:44-48 | The number of recorded failures of the challenge |
| `ChallengeGuards.ChallengeGuard.RecordFailure` | apps/fraud/challenge_guard.py:51-61 | One more record, and the tombstone at the limit |
| `ChallengeGuards.ChallengeGuard.Confirmation` | apps/fraud/challenge_guard.py:100-116 | Each outcome exactly under its condition: not found, other facts (and then expired), wrong code, success; success is consumption for this operation |
| `ChallengeGuards.ChallengeGuard.Attempted` | apps/fraud/challenge_guard.py:119-136 | The same conditions; success verifies without consuming |
| `ChallengeGuards.ChallengeGuard.Reissued` | apps/fraud/challenge_guard.py:141-183 | Succeeds exactly for an own pending challenge outside the cooldown; the old one is expired and the new one keeps its material and evaluation |
| `ChallengeGuards.AloneIsARun` | apps/fraud/challenge_guard.py:79-183 | What a method does undisturbed is a run of the interleaving step machine |
| `ChallengeOutcomes.VerificationOutcome` | apps/fraud/challenge_guard.py:79-136 | What a confirm or attempt leaves behind undisturbed: only the own pending challenge is touched; other facts expire it, in time or not; a wrong code is recorded; the right one consumes or verifies it |
| `ChallengeOutcomes.ReissueOutcome` | apps/fraud/challenge_guard.py:141-183 | A reissue replaces the own pending challenge by one of ten minutes with the same facts, unless the customer has had another within the last minute |
| `ChallengeOutcomes.ViewOutcome` | apps/fraud/challenge.py:77-83 | Viewing, by the customer or a superuser, expires a challenge exactly if it is pending past its time |
| `ChallengeOutcomes.OtherFactsKill` | apps/fraud/challenge_guard.py:64-136 | Under every interleaving: once a confirm or attempt for other facts has read the challenge as pending, its next step expires it and consumes nothing, and no later step consumes it |
| `ChallengeTheorems.NeverPendingAgain` | apps/fraud/challenge_guard.py:51-183 | Under every interleaving a challenge that has left PENDING never returns to it, and while pending it is as issued |
| `ChallengeTheorems.ConsumedAtMostOnce` | apps/fraud/challenge_guard.py:79-97 | Under every interleaving a challenge is consumed at most once |
| `ChallengeTheorems.VerifiedIsNeverConsumed` | apps/fraud/challenge_guard.py:119-136 | A challenge that was verified without being consumed never is |
| `ChallengeTheorems.ConsumedAsIssued` | apps/fraud/challenge_guard.py:79-116 | When a challenge is consumed it was pending, within its ten minutes, never consumed, the code matched, and an earlier step issued it or its predecessor to that customer for facts of the same digest |
| `ChallengeTheorems.ConsumedFactsAreIssued` | apps/fraud/challenge_guard.py:79-116 | If the consuming request presents the issued keys and the issued facts are not ambiguous, it presents the very facts that were issued, or there is a collision |
| `ChallengeFacts.OtherReadingIsAmbiguous` | apps/fraud/challenge.py:23-32 | If other values for the same keys give the same text, the issued list is ambiguous: the bar, key and equals sign of some fact also occur inside its own value or the value before it |
| `ChallengeFacts.AmbiguousHasTwin` | apps/fraud/challenge.py:23-32 | Every ambiguous list shares its text with another one |
| `ChallengeFacts.DigestBindsIffUnambiguous` | apps/fraud/challenge.py:23-32 | For keys without bars, the digest of issued facts binds exactly these values if and only if the issued list is not ambiguous, whatever list with its keys is presented, or there is a collision |
| `ChallengeFacts.FewerKeysCollide` | apps/fraud/challenge_views.py:98-125 | If the presenter may leave keys out, as with the facts posted for `attempt`, the first key alone can carry the text of any list of two facts or more |
| `ChallengeFacts.CardFactsExample` | apps/cards/services.py:139-140 | Amount "5|card=7" alone has the digest of amount 5 on card 7 |
| `ChallengeFacts.BarsMixFacts` | apps/fraud/challenge.py:23-32 | The shortest case: a value that swallows the next key, for all keys and values |
| `ChallengeFacts.ConsumedMaterialIsSpent` | apps/fraud/challenge.py:68-74 | The material left by a consumption is the digest of no facts and differs from one operation to another, unless two texts collide |
| `ChallengeAttempts.WrongCodesBounded` | apps/fraud/challenge_guard.py:44-61 | With k concurrent requests at most 2k + 3 wrong codes are ever tried against a challenge, and a pending one has at most k + 3 recorded failures between requests |
| `ChallengeAttempts.OneRequestAtATime` | apps/fraud/challenge_guard.py:44-61 | With one at a time: never more than MAX_ATTEMPTS codes, and pending means fewer failures |
| `ChallengeAttempts.PendingBoundIsReached` | apps/fraud/challenge_guard.py:44-61 | The bound k + 3 is attained for every k above zero |
| `ChallengeAttempts.WrongCodesBoundIsReached` | apps/fraud/challenge_guard.py:44-61 | So is the bound of 2k + 3 codes tried |
| `ChallengeAttempts.LimitHoldsIffSerial` | apps/fraud/challenge_guard.py:44-61 | So the documented limit holds for all interleavings of k requests if and only if k is at most one |
| `ChallengeAttempts.StaleReaderExpires` | apps/fraud/challenge.py:77-83 | CONSUMED is not terminal: a reader with an old probe may overwrite it with EXPIRED |

## Left out

- Internals of SHA-256, Ed25519 and Fernet, key rotation and key storage: unknown functions with the shape that callers see.
- Django, the ORM, PostgreSQL and trigger text: their guards are preconditions or branches of the steps; row locks make a call one step.
- Concurrent `post_journal` calls, which take no lock on the chain tail, and concurrent statement payments: each call is one step. Only the challenge protocol is interleaved.
- Decimal context precision and amounts that are not whole cents: all amounts are integers of cents.
- LedgerProofBatch.save and LedgerEntry.save guards: the batch guard leaves signed fields open that only the batch-chain command looks at; the entry guard is a plain refusal.
- The statement view of an account (`apps/accounts/statement.py`): a running sum over the same entries, with filters that change its window.
- Account opening, beneficiary management, limit changes and blocked amounts: limits and blocked amounts stay fixed in runs, only statuses change.
- Card and loan movements as steps of a bank run: a bank run has funding, transfers, reversals, bills and status changes; cards and loans have runs of their own.
- The total of a credit card's purchases and statement payments on the deposit account: both post a debit to it.
- Recurrence of scheduled transfers, transfer descriptions and fees: stored or constant, never acted on.
- Fraud rules, scoring, modes and manager authority: their verdict is a parameter.
- `resume_transfer`, `resume_payment` and `resume_purchase`: they pass the recorded facts on unchanged.
- CHALLENGE_VERIFIED, CHALLENGE_EXPIRED and CHALLENGE_REISSUED audit rows, delivery and notification: nothing reads them.
- One idempotency table for all services: funding, card and loan records are separate logs here, so a funding key that a manager spells like a card or loan key does not meet it.
- Posting times in another UTC offset than they are read back in: the text that was hashed is the text that is stored.
- Sorting the keys of a challenge's facts: a list of facts is given in key order.
- Years before 1 and after 9999, where Python dates overflow: years are unbounded.
- Card requests and their decisions, overdue reminders, open-cycle totals: lists and sums with easy claims. Cards appear in a run by a step of their own.
- Investments, onboarding, portal, audit, notifications, login, TOTP, sessions, seed commands: I/O, user interface or small members.
