# VirtueStack: verified models of the transactional cores

VirtueStack is a VM hosting platform: a controller that bills customers and drives node agents. This project models the
parts of it whose correctness depends on interleaving, in-place updates or arithmetic, and proves what they are for.

**Payments and the credit ledger** (`Payments`, `PaymentRuns` and the other `Payment*` modules). Gateway webhooks complete payments:
a transaction takes an advisory lock on the gateway id, selects the payment row for update, checks that no other payment
holds the id, marks the row, looks up the idempotency key, updates the customer balance, appends a ledger row and
commits. Refunds, plain credits and debits, and the creation of payment rows run beside them.

- `Payments.Atomic` says what each whole transaction does when it runs alone.
- `PaymentVerdicts` says when each of them commits, refuses or fails and exactly what it writes, in terms of the tables
  alone.
- `PaymentRuns` is the interleaved machine: one SQL statement per step, a private write buffer per transaction, locks
  held to commit or rollback, and a possible rollback at every point.
- `PaymentRefinement` proves that the machine refines `Atomic`. `PaymentExact` proves exactly when it does so for every
  set of requests. `PaymentAlone` proves the converse: every history that `Atomic` allows is a run of the machine.
- `PaymentLedger`, `PaymentSafety`, `PaymentHolders`, `PaymentSettlement` and `PaymentProgress` prove conservation,
  exactly-once effects, one settlement per gateway payment, all-or-nothing completion, freedom from deadlock, and
  termination. `PaymentRows` and `PaymentKeys` add what the payment service guarantees about its requests.
- `PaymentStore` is the repository as a class whose methods change the tables in place, proved against the same `Atomic`.

**Disk migration** (`DiskTransfer`, `DiskRoundTrip`): the chunking sender, the seek-and-write receiver, and its progress
reports.
**Bandwidth history** (`Bandwidth`, `BandwidthGroupBy`, `BandwidthTotals`, `BandwidthWindow`): the map-and-scan
aggregation against a plain group-by.
**Keyset paging** (`Paging`), **invoice numbering** (`Invoices`, `InvoiceRuns`), **backup quotas** (`BackupQuota`),
**leader election** (`LeaderLock`), **node connections** (`NodePool`, `NodePoolRuns`) and **audit masking** (`Masking`).

`dafny verify dfyconfig.toml` checks the whole project.

## What is assumed

- Isolation is PostgreSQL's READ COMMITTED: each statement sees the latest committed tables. A lock is held until its
  transaction ends.
- `hashtext` is an arbitrary function. Collisions only serialise more.
- `Config.index` says whether the unique index on (customer_id, idempotency_key) exists, as
  `migrations/000074_billing_transactions.up.sql` creates it. Results that need it say so.
- `Config.reserve` says that no row is created with a gateway id that another payment is being completed with at that
  moment. `PaymentExact.RefinesExactly` shows that this and the index are exactly what full refinement needs.
- `OwnedKey` says of one idempotency key of a customer that the requests carrying it are for one gateway payment or one
  refunded payment; `KeyOwned` says it of every key. `PaymentKeys.ServiceKeysOwned` shows that the claims of the payment
  service have owned keys, whatever refunds and postings run beside them, as long as those do not use a claim's key.
- `Validated` says that a claim is for the customer and the amount of its payment row. The repository does not compare
  them; the payment service does (`internal/controller/services/payment_service.go:304-317`, `425-438` and `702-715`).
- A refund does not look at the old status, so refunds are once per key, not once per payment.
- A failed commit ends its transaction.
- int64 arithmetic wraps. Conservation of balances and of bytes is stated in that arithmetic.

## Where the code departs from what it promises

The model follows the code. Each departure has the exact condition under which the promise holds.

- `CreditAccount` and `DebitAccount` promise the row of an earlier delivery of the key. A delivery that looked up the key
  before another one committed fails at the unique index instead (`OvertakenFails`); a transaction that ends by itself
  reports what it would report alone if and only if it was not overtaken (`VerdictIsAtomic`).
- A payment that is claimed again with its own gateway id is credited again if the request carries another key
  (`TwoKeysCreditTwice`). A payment claimed during a run has exactly one credit if and only if its committed claims carry
  one customer and one key (`OneCreditExactly`). The claims of the payment service do (`ServiceSettlesOnce`).
- A week of bandwidth history has up to 29 points. It has the documented 28 at most if and only if one of the 29 six-hour
  slots it touches is empty (`WeekPoints`). Stored snapshots, which are on the hour, can fill all 29 if and only if the
  week does not start in the last hour of a slot (`WeekCanHave29`).
- The aggregation agrees with the group-by if and only if the interval is at least one second (`GroupByExactly`). The
  only caller uses six hours.
- `CreateSnapshotWithLimitCheck` leaves its transaction open if and only if the quota refuses the snapshot.
- `GetConnection` may return a connection it has just closed, and may drop another caller's open one for good
  (`MeetingCloses`, `DeletionLeaks`). The pool stays exact, and everything handed out is open, in every run of given
  callers if and only if no `GetConnection` meets another caller of its node (`OwnedExactly`, `OpenExactly`). Within one
  run it stays exact if and only if no `GetConnection` re-checks or deletes and finds an entry (`RunOwnedExactly`).
- A failed unlock of a leader leaves the leader lock with that session for good (`FailedUnlockStrands`). The lock is held
  exactly while an instance leads if and only if no unlock of a leader has failed (`RunTidyExactly`). Mutual exclusion
  holds in any case.

## Model

| member | source | states |
|---|---|---|
| Payments.FindKey | internal/controller/repository/billing_transaction_repo.go:254-269 | A found row is in the ledger and has the customer and key; nothing is found exactly when no row has them |
| Payments.FindKeyAppend | internal/controller/repository/billing_transaction_repo.go:254-269 | Appending a row changes the answer for a key only if the key was absent |
| PaymentVerdicts.LookUpExactly | internal/controller/repository/billing_transaction_repo.go:254-302 | A key lookup answers fresh if and only if no row of the customer has the key, and existing if and only if the first such row agrees in type, amount, reference type and reference id |
| PaymentVerdicts.CompletionVerdict | internal/controller/repository/billing_payment_repo.go:224-246 | A completion commits if and only if the payment is on that gateway, pending or already completed with this id, no other payment of the gateway has the id, and the key is unused for a known customer or already records this credit; exactly when it is refused or conflicts; and it writes that row, that balance and that credit row and nothing else |
| PaymentVerdicts.CaptureVerdict | internal/controller/repository/billing_payment_repo.go:281-302 | The same for a capture: the PayPal order pending without another capture id or completed with this one, no other PayPal payment with the capture id; it records the capture id and credits once |
| PaymentVerdicts.RefundVerdict | internal/controller/repository/billing_payment_repo.go:304-327 | A refund commits if and only if the payment is the customer's and the key is unused for a known customer or already records this refund; it marks the row refunded, lowers the balance by the amount and appends one debit row referring to the payment |
| PaymentVerdicts.PostVerdict | internal/controller/repository/billing_transaction_repo.go:41-124 | A credit or debit is replayed if and only if the first row with its key is the same movement in every field, conflicts if and only if there is one that differs, and otherwise moves the balance of a known customer by its amount |
| PaymentVerdicts.CreateVerdict | internal/controller/repository/billing_payment_repo.go:70-87 | A payment row is added unchanged if and only if its id is new |
| Payments.PostedIsFound | internal/controller/repository/billing_transaction_repo.go:271-302 | A keyed posting that succeeded is found as a match by the next lookup |
| Payments.RedeliveryIsNoOp | internal/controller/repository/billing_payment_repo.go:224-246 | Delivering a committed claim, refund or posting again succeeds and changes nothing |
| PaymentInvariant.NameNamesPayment | internal/controller/repository/billing_payment_repo.go:363-374 | Among claims of one gateway, and among captures, equal advisory lock names mean the same gateway payment or capture |
| PaymentInvariant.ClaimsApart | internal/controller/repository/billing_payment_repo.go:363-374 | Two claims past the advisory lock are never of the same gateway payment or capture, whatever the hash |
| PaymentInvariant.SerialisedByLock | internal/controller/repository/billing_payment_repo.go:304-374 | Transactions past their lookups never share a claimed gateway payment or a refunded payment |
| PaymentInvariant.StepInv | internal/controller/repository/billing_payment_repo.go:329-565 | Every statement, commit, insert and rollback keeps: locks are exclusive, and what each transaction read under its locks still holds of the committed tables |
| PaymentInvariant.RunInv | internal/controller/repository/billing_payment_repo.go:224-327 | That invariant holds in every state of every run |
| PaymentRefinement.CommitIsAtomic | internal/controller/repository/billing_payment_repo.go:224-327 | A commit publishes exactly what the whole request would write running alone at that moment, given reservation for completions and the index or ownership of its own key |
| PaymentRefinement.VerdictIsAtomic | internal/controller/repository/billing_payment_repo.go:329-447 | A transaction that ends by itself (refused, repeated, not found, key conflict, index violation) reports the verdict of running alone at that moment if and only if no matching row was committed since it found its key absent; any keys, given reservation |
| PaymentRefinement.OwnedNotOvertaken | internal/controller/repository/billing_payment_repo.go:363-374 | A transaction whose own key is owned is never overtaken in that way |
| PaymentRefinement.RunRefines | internal/controller/repository/billing_payment_repo.go:224-327 | At every point of every run the tables are those of the committed requests replayed one at a time |
| PaymentRefinement.LogIsCommitted | internal/controller/repository/billing_payment_repo.go:224-327 | The commit log names each committed transaction once and no other |
| PaymentAlone.RunsAlone | internal/controller/repository/billing_payment_repo.go:224-327 | Undisturbed, a transaction that the specification commits runs to its commit, with the specified tables |
| PaymentAlone.ReplayIsRun | internal/controller/repository/billing_payment_repo.go:224-327 | Every history that the specification can replay is the commit log of a run and ends with the same tables, for any hash and index; rows are created pending, without a capture id and, under reservation, without a gateway id that the history completes another payment with |
| PaymentLedger.PostedTotal | internal/controller/repository/billing_transaction_repo.go:208-252 | Adding a credit or a positive-stored debit to the running total of a ledger gives the running total of the ledger with the posted row, in int64 arithmetic |
| PaymentLedger.RunConserves | internal/controller/repository/billing_payment_repo.go:522-565 | In every committed state each balance is the opening balance plus the signed rows, and each row's balance_after is the running sum up to it, for any hash, index and requests |
| PaymentLedger.KeyMovesOnce | internal/controller/repository/billing_transaction_repo.go:254-290 | The rows of a unique key add up to the one row that a lookup finds, or to zero |
| PaymentLedger.CommitMovesAmount | internal/controller/repository/billing_payment_repo.go:224-327 | However often a request was delivered before, once it commits its key has moved its customer by its signed amount, and no other key of anybody has moved |
| PaymentLedger.RunKeyUnique | internal/controller/repository/billing_payment_repo.go:329-374 | A key of a customer stays unique in the ledger over any run, given the index or only that the requests carrying this very key share a target |
| PaymentLedger.RunKeysUnique | migrations/000074_billing_transactions.up.sql:25-26 | With the index, or with every key owned, no two ledger rows of a customer ever share a key |
| PaymentLedger.RunMovesOnce | internal/controller/repository/billing_payment_repo.go:522-565 | Any number of concurrent deliveries moves a balance at most once per key, given the index or ownership of that key alone, whatever happens to other keys |
| PaymentSafety.RunEvolves | internal/controller/repository/billing_payment_repo.go:376-520 | Between any two points of a run a row keeps customer, gateway and amount; left Pending it keeps its ids and never returns; refunded or failed it can only become refunded; a recorded capture id never changes and recording one leaves the order id alone |
| PaymentSafety.RunRecorded | internal/controller/repository/billing_payment_repo.go:466-520 | Every committed claim still shows its gateway or capture id on its row at every later point, also after a refund |
| PaymentSafety.RunSettlesOnce | internal/controller/repository/billing_payment_repo.go:329-361 | Over a whole run a gateway payment or capture completes at most one local payment, which keeps showing it |
| PaymentHolders.RunCaptures | internal/controller/repository/billing_payment_repo.go:449-506 | A capture id is on at most one PayPal payment in every state of every run |
| PaymentHolders.RunCompletedDistinct | internal/controller/repository/billing_payment_repo.go:408-481 | At most one completed payment of a gateway other than PayPal has a gateway id in every state of every run, with any hash, index and reservation |
| PaymentSettlement.RunPosted | internal/controller/repository/billing_payment_repo.go:224-246 | Every committed keyed request has its matching ledger row ever after, given the index or ownership of its own key |
| PaymentSettlement.RunCompleted | internal/controller/repository/billing_payment_repo.go:466-506 | A payment that is completed was so initially or was claimed by a committed request |
| PaymentSettlement.RunRowsCommitted | internal/controller/repository/billing_payment_repo.go:281-327 | No half is left behind: the new ledger rows belong one to one, in commit order, to committed requests; a committed request without a row of its own is a creation or carries a key; every committed claim or refund shows on its payment |
| PaymentSettlement.OneCreditExactly | internal/controller/repository/billing_payment_repo.go:224-302 | A payment claimed during a run has exactly one credit row if and only if its committed claims carry one customer and one key |
| PaymentSettlement.SettlingFits | internal/controller/repository/billing_payment_repo.go:224-302 | With validated claims every credit of a payment is of the payment's own amount, to the payment's own customer |
| PaymentAlone.TwoKeysCreditTwice | internal/controller/repository/billing_payment_repo.go:421-426 | For every first claim of a payment and every other unused key there is a run in which the claim commits under both keys and the payment has two credits |
| PaymentSettlement.CreditSettlesOnePayment | internal/controller/repository/billing_payment_repo.go:224-302 | A credit row whose key is owned settles at most one payment |
| PaymentProgress.WantedIsLater | internal/controller/repository/billing_payment_repo.go:304-374 | Every transaction takes locks in the order advisory, payment row, customer row |
| PaymentProgress.WaitChainsShort | internal/controller/repository/billing_payment_repo.go:304-374 | The wait-for relation has no cycle and no chain through more than four transactions |
| PaymentProgress.SomeoneRuns | internal/controller/repository/billing_payment_repo.go:304-374 | While a claim, refund or posting is unfinished, one of them can execute a statement or commit |
| PaymentProgress.RunsFinish | internal/controller/repository/billing_payment_repo.go:224-327 | Every run has at most nine steps for each transaction, and one that can only be continued by rolling back has finished all claims, refunds and postings |
| PaymentExact.PostsNeedIndex | internal/controller/repository/billing_transaction_repo.go:41-80 | Two concurrent deliveries of one keyed credit or debit always leave keys unique if and only if the index exists |
| PaymentExact.BothPosted | internal/controller/repository/billing_transaction_repo.go:54-75 | Without the index there is a run that posts the same keyed request twice |
| PaymentExact.OvertakenFails | internal/controller/repository/billing_transaction_repo.go:38-80 | With the index there is, for every unused key, a run of two deliveries whose second fails although running alone it would return the first one's row |
| PaymentExact.RivalIgnored | internal/controller/repository/billing_payment_repo.go:432-447 | Without reservation there is a run in which a claim commits although a row created meanwhile has its gateway id |
| PaymentExact.RefinesExactly | internal/controller/repository/billing_payment_repo.go:329-374 | Every run over every set of requests refines the specification if and only if the index exists and created rows respect claims in progress |
| PaymentKeys.KeyNamesTarget | internal/controller/services/payment_service.go:319-327 | Equal credit keys come from deliveries of one gateway payment, across all gateways |
| PaymentRows.RunValidated | internal/controller/services/payment_service.go:304-317 | Claims that fit their payment rows, existing or yet to be created, fit them at every point of every run |
| PaymentKeys.ServiceKeysOwned | internal/controller/services/payment_service.go:319-327 | The key of every claim of the service is owned, whatever keys refunds and postings repeat among themselves |
| PaymentKeys.HourlyKeysApart | internal/controller/services/billing_scheduler.go:167-175 | Hourly charges never use the key of a claim |
| PaymentKeys.OneCustomer | internal/controller/services/payment_service.go:200-209 | Committed deliveries of one gateway payment are for one payment, customer, amount and key, also beside refunds and postings |
| PaymentKeys.ServiceCreditsOnce | internal/controller/services/payment_service.go:230-251 | Once a delivery of a gateway payment has committed, exactly one ledger row credits it: no row of another delivery and no new row under its key, of any customer, is a second one; beside any refunds and postings that do not use a claim's key, with or without the index |
| PaymentKeys.ServiceSettlesOnce | internal/controller/services/payment_service.go:230-251 | In such a run every claimed payment has exactly one credit row, of its own amount to its own customer, also after a refund |
| PaymentStore.BillingStore.ClaimTx | internal/controller/repository/billing_payment_repo.go:329-361 | A claim marks the row completed with its id if and only if the tables are open to it and no statement fails, and otherwise changes nothing |
| PaymentStore.BillingStore.PostTx | internal/controller/repository/billing_payment_repo.go:522-565 | A successful posting either found the same movement in every field or moves that balance by that amount with one new row; it does not succeed past a failed statement |
| PaymentStore.BillingStore.CompleteAndCredit | internal/controller/repository/billing_payment_repo.go:224-302 | Success marks that row, credits once under the key and means no statement failed; anything else changes nothing; without faults success comes exactly when the tables are open to the claim and the key allows it |
| PaymentStore.BillingStore.MarkRefundedAndDebit | internal/controller/repository/billing_payment_repo.go:305-327 | Success marks the customer's payment refunded and debits once under the key; anything else changes nothing; without faults success comes exactly when the payment is the customer's and the key allows it |
| PaymentStore.BillingStore.PostAccount | internal/controller/repository/billing_transaction_repo.go:41-124 | Success moves the balance with one new row, or found the same movement in every field and changes nothing; a used key with any other movement is a conflict; anything else changes nothing |
| DiskTransfer.WrittenBytes | internal/nodeagent/grpc_handlers_storage.go:439-446 | Byte by byte, a write at an offset puts the data there, keeps the rest and fills a gap with zeros |
| DiskTransfer.DiskFile.Seek | internal/nodeagent/grpc_handlers_storage.go:439-441 | Seeking fails exactly on a negative offset |
| DiskTransfer.DiskFile.Write | internal/nodeagent/grpc_handlers_storage.go:443-445 | Writing changes the file at its position and advances it |
| DiskTransfer.DiskFile.Place | internal/nodeagent/grpc_handlers_storage.go:438-446 | A chunk, or its first bytes if the write fails, is written at its own offset; nothing is if that is negative |
| DiskTransfer.TransferDisk | internal/nodeagent/grpc_handlers_storage.go:211-254 | For any read sizes and any point where a read or the stream fails, the chunks are consecutive non-empty pieces of the content within 64 KiB, full ones if the reads fill the buffer; success means all of it was sent without a failed read; it fails only for a failed or missing read or send |
| DiskTransfer.ReceiveDisk | internal/nodeagent/grpc_handlers_storage.go:408-461 | It succeeds if and only if no offset is negative, no write fails and the stream does not break; then the file, the byte count and the reports are those of the chunks in arrival order; otherwise the file holds some first chunks and at most a part of the next, and exactly the counted chunks unless a write failed |
| DiskRoundTrip.RebuildsExactly | internal/nodeagent/grpc_handlers_storage.go:428-446 | Any pieces in any order and number rebuild the content if and only if its last byte arrived and every byte that never arrived is zero |
| DiskRoundTrip.AnyDeliveryRebuilds | internal/nodeagent/grpc_handlers_storage.go:428-446 | Any reordering or duplication of the data chunks of a complete transfer rebuilds the source |
| DiskRoundTrip.InOrderIsPrefix | internal/nodeagent/grpc_handlers_storage.go:424-446 | After every in-order chunk the file is the source prefix of the counted length |
| DiskRoundTrip.InterruptedIsPrefix | internal/nodeagent/grpc_handlers_storage.go:418-446 | Wherever receiving in-order chunks is interrupted, also within a write, the file is a prefix of the source |
| DiskRoundTrip.CountedIsPrefix | internal/nodeagent/grpc_handlers_storage.go:424-446 | Unless a write failed it is the prefix of the counted length |
| DiskRoundTrip.CopyDisk | internal/nodeagent/grpc_handlers_storage.go:211-461 | Sender, stream and receiver together reproduce the source for any read sizes, or leave a prefix of it, of the counted length unless a write failed; only a failure to read, send, deliver or write prevents completion |
| DiskRoundTrip.FiresAtMarks | internal/nodeagent/grpc_handlers_storage.go:448-449 | The modulo test fires if and only if the chunk crosses a multiple of 100 MiB |
| DiskRoundTrip.ReportsCountMarks | internal/nodeagent/server.go:141-144 | With chunks within the 64 MiB message cap there is one report per mark passed |
| DiskRoundTrip.ReportsExactly | internal/nodeagent/grpc_handlers_storage.go:448-452 | The reported byte counts are those after the chunks that passed a 100 MiB mark, and no others |
| DiskRoundTrip.ReportsRise | internal/nodeagent/grpc_handlers_storage.go:448-452 | Reported byte counts never fall and never exceed what arrived |
| DiskRoundTrip.PercentExact | internal/nodeagent/grpc_handlers_storage.go:450 | Up to (2^63-1)/100 bytes the percentage does not overflow |
| DiskRoundTrip.PercentagesRise | internal/nodeagent/grpc_handlers_storage.go:448-452 | In order, the reported percentages are non-decreasing and within 0 to 100 |
| Bandwidth.SumBucket | internal/controller/repository/bandwidth_repo.go:317-329 | The loop returns the int64 sums of a bucket at its start time |
| Bandwidth.FileSnapshots | internal/controller/repository/bandwidth_repo.go:341-346 | The map holds under each Unix second exactly the snapshots whose bucket has it, in order |
| Bandwidth.Scan | internal/controller/repository/bandwidth_repo.go:348-354 | The scan emits the points of the non-empty keys from start to end |
| Bandwidth.AggregateSnapshots | internal/controller/repository/bandwidth_repo.go:332-357 | The method computes the aggregation that the following results are about |
| BandwidthGroupBy.AggregatedIsGroupBy | internal/controller/repository/bandwidth_repo.go:332-357 | For sorted input and intervals of a second or more: one point per non-empty bucket, its total, in strictly increasing time |
| BandwidthGroupBy.SubSecondDuplicates | internal/controller/repository/bandwidth_repo.go:342-351 | For every shorter interval some sorted input is aggregated wrongly |
| BandwidthGroupBy.GroupByExactly | internal/controller/repository/bandwidth_repo.go:332-357 | The aggregation is the group-by on all sorted inputs if and only if the interval is at least one second |
| BandwidthGroupBy.GroupByUnique | internal/controller/repository/bandwidth_repo.go:332-357 | The group-by of an input is a single sequence |
| BandwidthGroupBy.PointsKeepVm | internal/controller/repository/bandwidth_repo.go:317-329 | The points of a VM's snapshots carry that VM's id |
| BandwidthTotals.AggregationConserves | internal/controller/repository/bandwidth_repo.go:315-357 | Bytes in and bytes out are preserved in int64 arithmetic |
| BandwidthWindow.PointsWithin | internal/controller/repository/bandwidth_repo.go:347-354 | Whatever the interval and the order, snapshots spanning n intervals give at most n + 1 points |
| BandwidthWindow.WindowPoints | internal/controller/repository/bandwidth_repo.go:332-357 | A window of n intervals of a second or more gives at most n + 1 points, and at most n if and only if one of its n + 1 slots is empty |
| BandwidthWindow.WindowCanBeFull | internal/controller/repository/bandwidth_repo.go:332-357 | Wherever a window of n intervals starts, some snapshots in it give n + 1 points |
| BandwidthWindow.WeekPoints | internal/controller/repository/bandwidth_repo.go:215 | A week in six-hour buckets has at most 29 points, and at most the documented 28 if and only if one of the 29 slots it touches is empty |
| BandwidthWindow.WeekCanHave29 | internal/controller/repository/bandwidth_repo.go:283-313 | Snapshots on the hour, as stored, can make 29 points in the week from a given time if and only if it does not lie in the last hour of a six-hour slot |
| Paging.PerPage | internal/controller/models/base.go:57-73 | The page size is the requested one within 1 to 100, capped at 100 up to 10000, and 20 otherwise |
| Paging.DescendingTop | internal/controller/repository/backup_repo.go:258-262 | The query returns the greatest rows below the cursor in descending order, as many as asked or as there are |
| Paging.ListPage | internal/controller/repository/backup_repo.go:250-280 | A page is the greatest visible rows; hasMore holds if and only if a visible row is left out; the cursor is the last id |
| Paging.WalkFalls | internal/controller/repository/backup_repo.go:250-280 | Whatever happens to the table between requests, the rows come in strictly descending order, each from a table it was in |
| Paging.WalkFinishes | internal/controller/repository/backup_repo.go:250-280 | Whatever happens to the table between requests, the walk finishes within a bound given by its first cursor |
| Paging.WalkComplete | internal/controller/models/base.go:30-39 | A row present at every request is returned by a walk that finishes |
| Paging.WalkExactlyOnce | internal/controller/models/base.go:30-39 | Such a row is returned exactly once |
| Paging.FixedTablePages | internal/controller/models/base.go:30-39 | On a fixed table of n rows the walk finishes within k requests if and only if k is at least max(1, ceil(n / perPage)) |
| Invoices.ValidateTotals | internal/controller/repository/billing_invoice_repo.go:126-140 | The loop accepts if and only if the subtotal is the sum of the line items and the total is the subtotal with tax, in int64 |
| Invoices.SumItemsParts | internal/controller/repository/billing_invoice_repo.go:126-140 | The sum of one line item is that item, and of two lists both sums |
| Invoices.NumberRoundTrip | internal/controller/repository/billing_invoice_repo.go:52-64 | Reading the digits of an invoice number gives the number back; it has six digits up to 999999 and more beyond, then without leading zeros |
| Invoices.InvoiceStore.CreateWithNextNumber | internal/controller/repository/billing_invoice_repo.go:75-99 | Success stores the invoice under the next number and means no statement failed, any failure returns the drawn number, and without faults success is the specified verdict |
| InvoiceRuns.StepInv | internal/controller/repository/billing_invoice_repo.go:52-99 | Every step keeps: one transaction holds the counter row, and its drawn number and checks are current |
| InvoiceRuns.CommitIsIssue | internal/controller/repository/billing_invoice_repo.go:75-99 | A commit is one creation running alone on the books of that moment |
| InvoiceRuns.StatementIsIssue | internal/controller/repository/billing_invoice_repo.go:75-99 | A statement refuses a creation only if running alone at that moment would refuse it, and otherwise goes on |
| InvoiceRuns.RunIssueExactly | internal/controller/repository/billing_invoice_repo.go:75-140 | At every point of every run a creation alone succeeds if and only if subtotal and total match, a number is left, and it repeats no id and no customer period, and then stores it under the next number: the drawn number never collides, also past six digits |
| InvoiceRuns.RunGapFree | internal/controller/repository/billing_invoice_repo.go:52-99 | Over any interleaving of successful, conflicting and rolled-back creations the numbers are consecutive up to the counter, every new invoice has matching subtotal and total, and no id, number or period repeats |
| InvoiceRuns.NewNumbersDistinct | internal/controller/repository/billing_invoice_repo.go:52-64 | The number strings differ and read as their distance in the table, also past six digits |
| BackupQuota.BackupStore.CreateBackupWithLimitCheck | internal/controller/repository/backup_repo.go:97-148 | The row is added if and only if the count is below the limit and nothing fails, deleted backups do not count, and every path ends the transaction and frees the VM row |
| BackupQuota.BackupStore.CreateSnapshotWithLimitCheck | internal/controller/repository/backup_repo.go:408-459 | The snapshot is added under the same condition, and the transaction stays open if and only if the quota refuses |
| BackupQuota.StepCounts | internal/controller/repository/backup_repo.go:317-353 | A commit for a VM raises its count by one, deleting a backup that is not yet deleted lowers it by one, and nothing else changes it |
| BackupQuota.RefusedExactly | internal/controller/repository/backup_repo.go:106-126 | A statement refuses a creation exactly when the count has reached the limit or the VM does not exist |
| BackupQuota.StepInv | internal/controller/repository/backup_repo.go:106-126 | Every step keeps: one creation holds the VM row, and having counted it still has room |
| BackupQuota.RunWithinQuota | internal/controller/repository/backup_repo.go:94-148 | However many creations interleave with deletions and status updates, the VM never exceeds its limit |
| LeaderLock.AdvisoryLockDB.TryAdvisoryLock | internal/controller/repository/advisory_lock.go:27-52 | The lock is acquired and the connection pinned if and only if the query succeeds and the lock was free or the session's own; otherwise nothing changes |
| LeaderLock.AdvisoryLockDB.ReleaseAdvisoryLock | internal/controller/repository/advisory_lock.go:56-74 | The pinned connection is unlocked, unless the query fails, and always returned |
| LeaderLock.FaultedAttempt | internal/controller/repository/advisory_lock.go:35-43 | An attempt whose query fails acquires nothing and changes nothing |
| LeaderLock.RunExcludes | internal/controller/repository/advisory_lock.go:27-74 | In every run, failed queries included, at most one instance leads, its pinned connection is the holding session, and each pool connection is idle or pinned |
| LeaderLock.LeaderElected | internal/controller/repository/advisory_lock.go:27-52 | While the lock is tidy, an attempt succeeds if and only if nobody leads |
| LeaderLock.RunTidyExactly | internal/controller/repository/advisory_lock.go:56-74 | The lock is held exactly while an instance leads, and once, if and only if no unlock of a leader has failed so far |
| LeaderLock.StrandedForever | internal/controller/repository/advisory_lock.go:64-74 | After a failed unlock the leader's session holds the lock at every later point |
| LeaderLock.FailedUnlockStrands | internal/controller/repository/advisory_lock.go:64-74 | From then on, at every point of the run, an attempt succeeds if and only if the pool hands out that very connection |
| NodePool.NodeClient.GetInsecureConnection | internal/controller/grpc_client.go:239-274 | It returns the pooled connection, open or not, or dials and pools one, and fails only if dialling fails; other nodes are untouched |
| NodePool.NodeClient.RemoveConnection | internal/controller/grpc_client.go:182-195 | The node's connection is closed and dropped, and no other |
| NodePool.NodeClient.Close | internal/controller/grpc_client.go:198-214 | Nothing stays pooled, and exactly the connections that were out of the pool stay open |
| NodePool.NodeClient.Recheck | internal/controller/grpc_client.go:97-123 | Under the write lock a connection that was pooled meanwhile is closed and returned, and otherwise one is dialled |
| NodePool.NodeClient.DropDead | internal/controller/grpc_client.go:88-95 | The entry of a shut-down connection is dropped, and every open connection stays pooled |
| NodePool.NodeClient.GetConnection | internal/controller/grpc_client.go:78-123 | From any pool, also one with shut-down or leaked connections, the returned connection is open if and only if the lookup found an open one or nobody raced; other nodes are untouched and a pool without leaks stays so |
| NodePoolRuns.StepOwnedExactly | internal/controller/grpc_client.go:78-123 | From an exact pool a step keeps it exact if and only if it is not a GetConnection that re-checks or deletes and finds an entry for its node |
| NodePoolRuns.RunOwnedExactly | internal/controller/grpc_client.go:78-274 | The pool was exact up to a point of a run if and only if no such step came before it |
| NodePoolRuns.RunOwned | internal/controller/grpc_client.go:182-274 | In every interleaving of callers of GetInsecureConnection, lone callers of GetConnection, removals and closings, the open connections are exactly the pooled ones, one per node |
| NodePoolRuns.RunHandsOutOpen | internal/controller/grpc_client.go:78-123 | In those runs every connection is open when it is handed out |
| NodePoolRuns.MeetingCloses | internal/controller/grpc_client.go:97-112 | From every start, a GetConnection that meets another caller of its node can close and return the connection the other one pooled |
| NodePoolRuns.OwnedExactly | internal/controller/grpc_client.go:78-274 | The pool stays exact in every run of given callers if and only if no GetConnection meets another caller of its node |
| NodePoolRuns.OpenExactly | internal/controller/grpc_client.go:78-123 | Everything handed out in every run of given callers is open if and only if no GetConnection meets another caller of its node |
| NodePoolRuns.DeletionLeaks | internal/controller/grpc_client.go:88-95 | A GetConnection whose connection was removed can delete the entry of a caller that pooled a new one, leaving that one open and out of the pool |
| NodePoolRuns.LeakedForever | internal/controller/grpc_client.go:182-214 | A connection open and out of the pool is never closed again |
| NodePoolRuns.RacersShare | internal/controller/grpc_client.go:239-274 | Racing callers for a node with no removal in between get the same connection |
| Masking.IsSensitiveField | internal/controller/audit/masking.go:58-66 | The loop finds a pattern if and only if one is contained in the lower-cased name |
| Masking.SensitiveExactly | internal/controller/audit/masking.go:10-24 | A key is sensitive if and only if its lower-cased name has one of the thirteen patterns anywhere in it |
| Masking.MaskSensitiveFields | internal/controller/audit/masking.go:29-54 | The result shows at every path without a sensitive key what the original shows, and at any other path at most the marker |
| Masking.CleanPaths | internal/controller/audit/masking.go:43-50 | Along paths without sensitive keys lies the masked original |
| Masking.PlainValuesKept | internal/controller/audit/masking.go:43-50 | Along such paths plain values and nil maps are the very same, maps have the same keys, and nothing appears or disappears |
| Masking.SensitivePaths | internal/controller/audit/masking.go:37-41 | A sensitive key at any depth is present if and only if it was, holds the marker, and hides everything beneath |
| Masking.NoSecretSurvives | internal/controller/audit/masking.go:29-54 | Any path with a sensitive key shows the marker or nothing |
| Masking.MaskTwice | internal/controller/audit/masking.go:29-54 | Masking twice is masking once |

## Left out

- `Update` and `UpdateStatus` of payments, `NextInvoiceNumber`, and `Create` of invoices: writers that bypass the protocols.
- `CompleteWithGatewayPaymentID` and `CompletePayPalCapture` without a credit: the same claim steps with nothing posted.
- Ledger types adjustment and refund, descriptions, currencies and the reuse_key column: stored, not decided upon.
- Payment, transaction and invoice lists: ordered by created_at but filtered by id, so paging needs the two orders to agree.
- PaymentKeys.ServiceCreditsOnce: does not cover claims for events without a gateway payment id, or for PayPal events without an order id, whose keys come from the event.
- PaymentProgress.SomeoneRuns: does not claim that a row creation can proceed, because its id may be taken.
- DiskTransfer.ReceiveDisk: its success does not imply a complete file, because the code never compares the byte count with the total; the byte count is unbounded.
- LVM disk transfer, qemu-img, dd, libvirt and other external processes: foreign programs.
- BackupQuota.RunWithinQuota: takes each VM's limits as bounded by one value and status updates as never reviving a deleted backup, because the code would allow both.
- `CreateBackup` and `CreateSnapshot`: they insert without lock or count, so `BackupQuota.RunWithinQuota` is about runs without them.
- Concurrent snapshot creations: the same lock and count as backups, apart from the transaction left open.
- NodePool.NodeClient.GetConnection: models one call, with the race as a flag; the interleavings are in `NodePoolRuns`.
- LeaderLock.RunExcludes: one lock id, and no lost server connections.
- Masking.IsSensitiveField: lower-casing is a parameter, because Unicode case mapping is library behaviour.
- SQL text, JSON, base64 and cursor encoding, path and identifier validation, token and webhook signatures: library behaviour or input hardening.
- Time arithmetic: times are unbounded integers of nanoseconds.
- Provider registries, permission tables, VM state transitions, scheduler, failover, IPAM, task worker, web UI and notifications: finite facts or plumbing.
